/** The secrets file of `cockpit/backend/app/secrets_store.py`: parse, update, print. */
module EnvFile {
  import opened Lists
  import opened Strings
  import Sorting

  // ----- Lines

  function SplitLines(text: string): seq<string> {
    if text == "" then [] else
      var k := FirstIndex(IsBreak, text);
      if k == |text| then [text] else
        var next := if text[k] == '\r' && k + 1 < |text| && text[k + 1] == '\n' then k + 2 else k + 1;
        [text[..k]] + SplitLines(text[next..])
  }

  /** `"\n".join(lines) + "\n"`. */
  function Written(lines: seq<string>): string {
    if lines == [] then "\n" else Lines(lines)
  }

  function Lines(lines: seq<string>): string {
    if lines == [] then "" else lines[0] + "\n" + Lines(lines[1..])
  }

  predicate NoBreaks(s: string) {
    forall i :: 0 <= i < |s| ==> !IsBreak(s[i])
  }

  // ----- Keys and lines

  predicate Upper(c: char) {
    'A' <= c <= 'Z'
  }

  predicate KeyChar(c: char) {
    Upper(c) || '0' <= c <= '9' || c == '_'
  }

  /** A capital, then 1 to 63 capitals, digits or underscores. */
  predicate IsKey(k: string) {
    2 <= |k| <= 64 && Upper(k[0]) && forall i :: 0 <= i < |k| ==> KeyChar(k[i])
  }

  /** The pattern ends in `$`, which also matches before one final line feed. */
  predicate KeyMatches(k: string) {
    IsKey(k) || (k != "" && k[|k| - 1] == '\n' && IsKey(k[..|k| - 1]))
  }

  /** The key and value of a line, or nothing for blanks, comments and unrecognised lines. */
  function ParseLine(line: string): Option<(string, string)> {
    var s := Strip(line);
    var i := FirstIndex((c: char) => c == '=', s);
    if s == "" || s[0] == '#' || i == |s| then None
    else if KeyMatches(Strip(s[..i])) then Some((Strip(s[..i]), s[i + 1..]))
    else None
  }

  type Dict = map<string, string>

  function ParseLines(lines: seq<string>): Dict {
    if lines == [] then map[] else
      var d, p := ParseLines(lines[..|lines| - 1]), ParseLine(lines[|lines| - 1]);
      if p.Some? then d[p.value.0 := p.value.1] else d
  }

  method Parse(text: string) returns (out: Dict)
    ensures out == ParseLines(SplitLines(text))
  {
    var lines := SplitLines(text);
    out := map[];
    for n := 0 to |lines|
      invariant out == ParseLines(lines[..n])
    {
      Snoc(lines, n);
      var p := ParseLine(lines[n]);
      if p.Some? {
        out := out[p.value.0 := p.value.1];
      }
    }
    Whole(lines);
  }

  // ----- Basic facts

  lemma SplitFirst(l: string, rest: string)
    requires NoBreaks(l)
    ensures SplitLines(l + "\n" + rest) == [l] + SplitLines(rest)
  {
    var text := l + "\n" + rest;
    forall j | 0 <= j < |l| ensures !IsBreak(text[j]) {
      assert text[j] == l[j];
    }
    assert text[|l|] == '\n' && IsBreak(text[|l|]);
    assert FirstIndex(IsBreak, text) == |l|;
    assert text[..|l|] == l && text[|l| + 1..] == rest;
  }

  lemma {:induction false} SplitOfLines(lines: seq<string>)
    requires forall i :: 0 <= i < |lines| ==> NoBreaks(lines[i])
    ensures SplitLines(Lines(lines)) == lines
  {
    if lines != [] {
      SplitOfLines(lines[1..]);
      SplitFirst(lines[0], Lines(lines[1..]));
      assert lines == [lines[0]] + lines[1..];
    }
  }

  lemma {:induction false} SplitHasNoBreaks(text: string)
    ensures forall i :: 0 <= i < |SplitLines(text)| ==> NoBreaks(SplitLines(text)[i])
    decreases |text|
  {
    if text != "" {
      var k := FirstIndex(IsBreak, text);
      assert NoBreaks(text[..k]);
      if k < |text| {
        var next := if text[k] == '\r' && k + 1 < |text| && text[k + 1] == '\n' then k + 2 else k + 1;
        SplitHasNoBreaks(text[next..]);
      } else {
        assert text[..k] == text;
      }
    }
  }

  /** A value that survives printing and parsing: no line break, no trailing white space. */
  predicate Clean(v: string) {
    NoBreaks(v) && (v == "" || !IsSpace(v[|v| - 1]))
  }

  function Entry(k: string, v: string): string {
    k + "=" + v
  }

  lemma KeyHasNoSpace(c: char)
    requires KeyChar(c)
    ensures !IsSpace(c) && c != '#' && c != '='
  {
  }

  lemma EntryHasNoBreaks(k: string, v: string)
    requires IsKey(k) && NoBreaks(v)
    ensures NoBreaks(Entry(k, v))
  {
    var s := Entry(k, v);
    forall j | 0 <= j < |s| ensures !IsBreak(s[j]) {
      if j < |k| {
        assert s[j] == k[j];
        KeyHasNoSpace(k[j]);
      } else if j > |k| {
        assert s[j] == v[j - |k| - 1];
      }
    }
  }

  lemma {:induction false} RStripAfter(a: string, v: string)
    requires a != "" && !IsSpace(a[|a| - 1])
    ensures RStrip(a + v) == a + RStrip(v)
  {
    if v == "" {
      assert a + v == a;
    } else {
      var init, c := v[..|v| - 1], v[|v| - 1];
      assert (a + v)[|a + v| - 1] == c && (a + v)[..|a + v| - 1] == a + init;
      RStripAfter(a, init);
    }
  }

  lemma EntryIsStripped(k: string, v: string)
    requires IsKey(k)
    ensures Strip(Entry(k, v)) == Entry(k, RStrip(v)) && Strip(k) == k && Entry(k, v)[0] == k[0] != '#'
  {
    KeyHasNoSpace(k[0]);
    KeyHasNoSpace(k[|k| - 1]);
    StripIsIdentity(k);
    RStripAfter(k + "=", v);
  }

  /** The key comes back, and the value without its trailing white space. */
  lemma EntryKeyParses(k: string, v: string)
    requires IsKey(k)
    ensures ParseLine(Entry(k, v)) == Some((k, RStrip(v)))
  {
    var s := Entry(k, RStrip(v));
    EntryIsStripped(k, v);
    assert s[|k|] == '=';
    forall j | 0 <= j < |k| ensures s[j] != '=' {
      assert s[j] == k[j];
      KeyHasNoSpace(k[j]);
    }
    assert FirstIndex((c: char) => c == '=', s) == |k|;
    assert s[..|k|] == k && s[|k| + 1..] == RStrip(v);
  }

  lemma EntryParses(k: string, v: string)
    requires IsKey(k) && Clean(v)
    ensures ParseLine(Entry(k, v)) == Some((k, v)) && NoBreaks(Entry(k, v))
  {
    EntryHasNoBreaks(k, v);
    EntryKeyParses(k, v);
  }

  lemma {:induction false} RStripFacts(s: string)
    ensures RStrip(s) <= s
    ensures RStrip(s) == "" || !IsSpace(RStrip(s)[|RStrip(s)| - 1])
  {
    if s != "" && IsSpace(s[|s| - 1]) {
      RStripFacts(s[..|s| - 1]);
    }
  }

  lemma {:induction false} LStripFacts(s: string)
    ensures NoBreaks(s) ==> NoBreaks(LStrip(s))
  {
    if s != "" && IsSpace(s[0]) {
      LStripFacts(s[1..]);
    }
  }

  /** Whatever the parser reads from a line is a proper key with a clean value. */
  lemma ParsedIsClean(line: string)
    requires NoBreaks(line) && ParseLine(line).Some?
    ensures var (k, v) := ParseLine(line).value; IsKey(k) && Clean(v)
  {
    var s := Strip(line);
    var i := FirstIndex((c: char) => c == '=', s);
    LStripFacts(line);
    RStripFacts(LStrip(line));
    RStripFacts(LStrip(s[..i]));
    var k, v := Strip(s[..i]), s[i + 1..];
    assert k != "" ==> !IsSpace(k[|k| - 1]);
    assert v != "" ==> v[|v| - 1] == s[|s| - 1];
  }

  ghost predicate GoodDict(d: Dict) {
    forall k :: k in d ==> IsKey(k) && Clean(d[k])
  }

  /** Proper keys, and values without a break; a trailing blank may be lost. */
  ghost predicate PlainDict(d: Dict) {
    forall k :: k in d ==> IsKey(k) && NoBreaks(d[k])
  }

  lemma {:induction false} ParsedDictIsGood(lines: seq<string>)
    requires forall i :: 0 <= i < |lines| ==> NoBreaks(lines[i])
    ensures GoodDict(ParseLines(lines))
  {
    if lines != [] {
      ParsedDictIsGood(lines[..|lines| - 1]);
      if ParseLine(lines[|lines| - 1]).Some? {
        ParsedIsClean(lines[|lines| - 1]);
      }
    }
  }

  // ----- Updating

  type Updates = seq<(string, Option<string>)>

  datatype PutResult = Saved | BadKey(key: string) | BadValue

  predicate Deletes(u: (string, Option<string>)) {
    u.1 == None || u.1 == Some("")
  }

  function ErrorOf(u: (string, Option<string>)): Option<PutResult> {
    if !KeyMatches(u.0) then Some(BadKey(u.0))
    else if !Deletes(u) && ('\n' in u.1.value || '\r' in u.1.value) then Some(BadValue)
    else None
  }

  /** The first error among the updates, in order. */
  function FirstError(us: Updates): Option<PutResult> {
    if us == [] then None else
      var e := FirstError(us[..|us| - 1]);
      if e.Some? then e else ErrorOf(us[|us| - 1])
  }

  function Updated(d: Dict, us: Updates): Dict {
    if us == [] then d else
      var d', u := Updated(d, us[..|us| - 1]), us[|us| - 1];
      if Deletes(u) then d' - {u.0} else d'[u.0 := u.1.value]
  }

  const HEADER_PARTS := ["# ~/.config", "/kalived/env", " — cockpit ", "Settings.", " chmod 600.", " Ikke git-add."]
  const HEADER := Joined(HEADER_PARTS)

  function Joined(parts: seq<string>): string {
    if parts == [] then "" else Joined(parts[..|parts| - 1]) + parts[|parts| - 1]
  }

  function OldLines(raw: string): seq<string> {
    if raw == "" then [HEADER] else SplitLines(raw)
  }

  /** A line with the new value; a deleted key's line is dropped, an other line stays as it is. */
  function Reprinted(line: string, d: Dict): seq<string> {
    var p := ParseLine(line);
    if p.None? then [line] else if p.value.0 !in d then [] else [Entry(p.value.0, d[p.value.0])]
  }

  function Reprinter(d: Dict): string -> seq<string> {
    (line: string) => Reprinted(line, d)
  }

  function Reemit(lines: seq<string>, d: Dict): seq<string> {
    FlatMap(Reprinter(d), lines)
  }

  function Keys(lines: seq<string>): set<string> {
    if lines == [] then {} else
      var p := ParseLine(lines[|lines| - 1]);
      Keys(lines[..|lines| - 1]) + if p.Some? then {p.value.0} else {}
  }

  function Fresh(order: seq<string>, d: Dict): seq<string>
    requires forall k :: k in order ==> k in d
  {
    if order == [] then [] else
      Fresh(order[..|order| - 1], d) + [Entry(order[|order| - 1], d[order[|order| - 1]])]
  }

  /** Python's `sorted` on a set of keys. */
  ghost predicate SortedKeys(order: seq<string>, keys: set<string>) {
    Sorting.Ascending(Sorting.LexLe, order) && Distinct(order) && forall k :: k in order <==> k in keys
  }

  ghost predicate NewText(raw: string, d: Dict, text: string) {
    exists order :: SortedKeys(order, d.Keys - Keys(OldLines(raw)))
      && text == Written(Reemit(OldLines(raw), d) + Fresh(order, d))
  }

  lemma NewOrder(raw: string, d: Dict, text: string) returns (order: seq<string>)
    requires NewText(raw, d, text)
    ensures SortedKeys(order, d.Keys - Keys(OldLines(raw)))
    ensures text == Written(Reemit(OldLines(raw), d) + Fresh(order, d))
  {
    order :| SortedKeys(order, d.Keys - Keys(OldLines(raw)))
      && text == Written(Reemit(OldLines(raw), d) + Fresh(order, d));
  }

  class SecretsFile {
    var text: string  // empty when the file is missing

    method Put(us: Updates) returns (r: PutResult)
      modifies this
      ensures FirstError(us).Some? ==> r == FirstError(us).value && text == old(text)
      ensures FirstError(us).None? ==>
        r == Saved && NewText(old(text), Updated(ParseLines(SplitLines(old(text))), us), text)
    {
      var raw := text;
      var data := Parse(raw);
      ghost var d0 := data;
      for n := 0 to |us|
        invariant FirstError(us[..n]).None? && data == Updated(d0, us[..n])
        invariant text == raw
      {
        Snoc(us, n);
        var (k, v) := us[n];
        if !KeyMatches(k) {
          ErrorStays(us, n + 1);
          return BadKey(k);
        }
        if v == None || v == Some("") {
          data := data - {k};
        } else {
          if '\n' in v.value || '\r' in v.value {
            ErrorStays(us, n + 1);
            return BadValue;
          }
          data := data[k := v.value];
        }
      }
      Whole(us);
      var lines := if raw == "" then [HEADER] else SplitLines(raw);
      var out, seen := Rewrite(lines, data);
      var order := SortKeys(data.Keys - seen);
      assert data.Keys - seen == data.Keys - Keys(lines);
      var added := AppendNew(order, data);
      text := Written(out + added);
      return Saved;
    }
  }

  lemma {:induction false} ErrorStays(us: Updates, n: nat)
    requires n <= |us| && FirstError(us[..n]).Some?
    ensures FirstError(us) == FirstError(us[..n])
    decreases |us| - n
  {
    if n < |us| {
      Snoc(us, n);
      ErrorStays(us, n + 1);
    } else {
      Whole(us);
    }
  }

  method Rewrite(lines: seq<string>, d: Dict) returns (out: seq<string>, seen: set<string>)
    ensures out == Reemit(lines, d)
    ensures seen == Keys(lines) * d.Keys
  {
    out, seen := [], {};
    for n := 0 to |lines|
      invariant out == Reemit(lines[..n], d)
      invariant seen == Keys(lines[..n]) * d.Keys
    {
      OneMoreLine(lines, n, d);
      var p := ParseLine(lines[n]);
      if p.None? {
        out := out + [lines[n]];
      } else if p.value.0 in d {
        out := out + [Entry(p.value.0, d[p.value.0])];
        seen := seen + {p.value.0};
      }
    }
    Whole(lines);
  }

  lemma OneMoreLine(lines: seq<string>, n: nat, d: Dict)
    requires n < |lines|
    ensures Reemit(lines[..n + 1], d) == Reemit(lines[..n], d) + Reprinted(lines[n], d)
    ensures Keys(lines[..n + 1]) * d.Keys ==
      var p := ParseLine(lines[n]);
      if p.Some? && p.value.0 in d then Keys(lines[..n]) * d.Keys + {p.value.0} else Keys(lines[..n]) * d.Keys
  {
    Snoc(lines, n);
  }

  method AppendNew(order: seq<string>, d: Dict) returns (out: seq<string>)
    requires forall k :: k in order ==> k in d
    ensures out == Fresh(order, d)
  {
    out := [];
    for n := 0 to |order|
      invariant out == Fresh(order[..n], d)
    {
      Snoc(order, n);
      out := out + [Entry(order[n], d[order[n]])];
    }
    Whole(order);
  }

  method SortKeys(keys: set<string>) returns (order: seq<string>)
    ensures SortedKeys(order, keys)
  {
    var listed: seq<string> := [];
    var rest := keys;
    while rest != {}
      invariant Distinct(listed) && rest <= keys
      invariant forall k :: k in listed <==> k in keys && k !in rest
      decreases |rest|
    {
      var k :| k in rest;
      DistinctSnoc(listed, k);
      listed := listed + [k];
      rest := rest - {k};
    }
    SortedKeepsKeys(listed);
    order := Sorting.Sort(Sorting.LexLe, listed);
  }

  lemma SortedKeepsKeys(listed: seq<string>)
    requires Distinct(listed)
    ensures SortedKeys(Sorting.Sort(Sorting.LexLe, listed), set k | k in listed)
  {
    var order := Sorting.Sort(Sorting.LexLe, listed);
    Sorting.LexIsTotal();
    Sorting.SortSorts(Sorting.LexLe, listed);
    SameElements(order, listed);
    DistinctIffOnce(listed);
    DistinctIffOnce(order);
  }

  // ----- What the written file means

  /** `m` holds exactly the keys `ks`, with the values of `d`. */
  ghost predicate Agrees(m: Dict, d: Dict, ks: set<string>) {
    (forall k :: k in m <==> k in ks) && forall k :: k in m ==> k in d && m[k] == d[k]
  }

  lemma ParseLinesSnoc(lines: seq<string>, line: string)
    ensures ParseLines(lines + [line]) ==
      var p := ParseLine(line);
      if p.Some? then ParseLines(lines)[p.value.0 := p.value.1] else ParseLines(lines)
  {
  }

  lemma ReprintStep(before: seq<string>, d: Dict, ks: set<string>, line: string)
    requires GoodDict(d) && Agrees(ParseLines(before), d, ks)
    ensures Agrees(ParseLines(before + Reprinted(line, d)), d, ks + Keys([line]) * d.Keys)
  {
    var p := ParseLine(line);
    OneKey(line);
    if p.None? {
      ParseLinesSnoc(before, line);
    } else if p.value.0 !in d {
      assert before + [] == before;
    } else {
      FreshStep(before, d, ks, p.value.0);
    }
  }

  lemma OneKey(line: string)
    ensures Keys([line]) == if ParseLine(line).Some? then {ParseLine(line).value.0} else {}
  {
    var one := [line];
    assert one[..0] == [];
  }

  lemma {:induction false} ReemitParses(lines: seq<string>, d: Dict)
    requires GoodDict(d)
    ensures Agrees(ParseLines(Reemit(lines, d)), d, Keys(lines) * d.Keys)
  {
    if lines != [] {
      var init, line := lines[..|lines| - 1], lines[|lines| - 1];
      ReemitParses(init, d);
      ReprintStep(Reemit(init, d), d, Keys(init) * d.Keys, line);
      OneKey(line);
      assert Keys(lines) * d.Keys == Keys(init) * d.Keys + Keys([line]) * d.Keys;
    }
  }

  function Members(order: seq<string>): set<string> {
    set k | k in order
  }

  lemma AgreesPlus(m: Dict, d: Dict, ks: set<string>, k: string)
    requires Agrees(m, d, ks) && k in d
    ensures Agrees(m[k := d[k]], d, ks + {k})
  {
  }

  lemma MembersSnoc(order: seq<string>, k: string)
    ensures Members(order + [k]) == Members(order) + {k}
  {
  }

  lemma PlusMember(ks: set<string>, init: seq<string>, k: string)
    ensures ks + Members(init + [k]) == ks + Members(init) + {k}
  {
    MembersSnoc(init, k);
  }

  lemma EntryAdds(lines: seq<string>, k: string, v: string)
    requires IsKey(k) && Clean(v)
    ensures ParseLines(lines + [Entry(k, v)]) == ParseLines(lines)[k := v]
  {
    EntryParses(k, v);
    ParseLinesSnoc(lines, Entry(k, v));
  }

  lemma FreshStep(before: seq<string>, d: Dict, ks: set<string>, k: string)
    requires GoodDict(d) && Agrees(ParseLines(before), d, ks) && k in d
    ensures Agrees(ParseLines(before + [Entry(k, d[k])]), d, ks + {k})
  {
    AgreesPlus(ParseLines(before), d, ks, k);
    EntryAdds(before, k, d[k]);
  }

  lemma FreshGrows(lines: seq<string>, init: seq<string>, d: Dict, k: string)
    requires k in d && forall x :: x in init ==> x in d
    ensures lines + Fresh(init + [k], d) == lines + Fresh(init, d) + [Entry(k, d[k])]
  {
    assert (init + [k])[..|init|] == init;
  }

  lemma {:induction false} FreshParses(lines: seq<string>, order: seq<string>, d: Dict, ks: set<string>)
    requires GoodDict(d) && Agrees(ParseLines(lines), d, ks)
    requires forall k :: k in order ==> k in d
    ensures Agrees(ParseLines(lines + Fresh(order, d)), d, ks + Members(order))
  {
    if order == [] {
      assert lines + [] == lines && ks + {} == ks;
    } else {
      var init, k := order[..|order| - 1], order[|order| - 1];
      assert order == init + [k];
      FreshParses(lines, init, d, ks);
      FreshStep(lines + Fresh(init, d), d, ks + Members(init), k);
      FreshGrows(lines, init, d, k);
      PlusMember(ks, init, k);
    }
  }

  lemma ReemitHasNoBreaks(lines: seq<string>, d: Dict)
    requires PlainDict(d) && forall i :: 0 <= i < |lines| ==> NoBreaks(lines[i])
    ensures forall i :: 0 <= i < |Reemit(lines, d)| ==> NoBreaks(Reemit(lines, d)[i])
  {
    forall i | 0 <= i < |Reemit(lines, d)| ensures NoBreaks(Reemit(lines, d)[i]) {
      var line := FlatMapFrom(Reprinter(d), lines, Reemit(lines, d)[i]);
      var p := ParseLine(line);
      if p.Some? && p.value.0 in d {
        EntryHasNoBreaks(p.value.0, d[p.value.0]);
      }
    }
  }

  lemma {:induction false} FreshHasNoBreaks(order: seq<string>, d: Dict)
    requires PlainDict(d) && forall k :: k in order ==> k in d
    ensures forall i :: 0 <= i < |Fresh(order, d)| ==> NoBreaks(Fresh(order, d)[i])
  {
    if order != [] {
      FreshHasNoBreaks(order[..|order| - 1], d);
      EntryHasNoBreaks(order[|order| - 1], d[order[|order| - 1]]);
    }
  }

  lemma JoinedHasNoBreaks(a: string, b: string)
    requires NoBreaks(a) && NoBreaks(b)
    ensures NoBreaks(a + b)
  {
  }

  lemma CommentIsOther(s: string)
    requires s != "" && s[0] == '#' && !IsSpace(s[|s| - 1])
    ensures ParseLine(s) == None
  {
    StripIsIdentity(s);
  }

  lemma {:induction false} JoinedParts(parts: seq<string>)
    requires parts != [] && (forall i :: 0 <= i < |parts| ==> parts[i] != "" && NoBreaks(parts[i]))
    ensures NoBreaks(Joined(parts)) && Joined(parts) != ""
    ensures Joined(parts)[0] == parts[0][0]
    ensures Joined(parts)[|Joined(parts)| - 1] == parts[|parts| - 1][|parts[|parts| - 1]| - 1]
  {
    var init, last := parts[..|parts| - 1], parts[|parts| - 1];
    if init == [] {
      assert Joined(parts) == "" + last == last;
    } else {
      JoinedParts(init);
      JoinedHasNoBreaks(Joined(init), last);
    }
  }

  lemma HeaderPart(i: nat)
    requires i < |HEADER_PARTS|
    ensures HEADER_PARTS[i] != "" && NoBreaks(HEADER_PARTS[i])
  {
  }

  lemma HeaderIsAComment()
    ensures NoBreaks(HEADER) && ParseLine(HEADER) == None
  {
    forall i | 0 <= i < |HEADER_PARTS| ensures HEADER_PARTS[i] != "" && NoBreaks(HEADER_PARTS[i]) {
      HeaderPart(i);
    }
    JoinedParts(HEADER_PARTS);
    assert HEADER_PARTS[0][0] == '#' && HEADER_PARTS[5][13] == '.';
    CommentIsOther(HEADER);
  }

  lemma OldLinesHaveNoBreaks(raw: string)
    ensures forall i :: 0 <= i < |OldLines(raw)| ==> NoBreaks(OldLines(raw)[i])
  {
    HeaderIsAComment();
    SplitHasNoBreaks(raw);
  }

  /** The lines of a written file, and what they parse to: an empty file still has one blank line. */
  lemma WrittenLines(lines: seq<string>)
    requires forall i :: 0 <= i < |lines| ==> NoBreaks(lines[i])
    ensures SplitLines(Written(lines)) == if lines == [] then [""] else lines
    ensures ParseLines(SplitLines(Written(lines))) == ParseLines(lines)
  {
    SplitOfLines(lines);
    SplitFirst("", "");
    assert "" + "\n" + "" == "\n";
    var blank := [""];
    assert blank[..0] == [] && ParseLine("") == None;
  }

  lemma GoodFileRoundTrip(raw: string, d: Dict, order: seq<string>)
    requires SortedKeys(order, d.Keys - Keys(OldLines(raw))) && GoodDict(d)
    ensures ParseLines(SplitLines(Written(Reemit(OldLines(raw), d) + Fresh(order, d)))) == d
  {
    var lines := OldLines(raw);
    OldLinesHaveNoBreaks(raw);
    ReemitHasNoBreaks(lines, d);
    FreshHasNoBreaks(order, d);
    WrittenLines(Reemit(lines, d) + Fresh(order, d));
    ReemitParses(lines, d);
    FreshParses(Reemit(lines, d), order, d, Keys(lines) * d.Keys);
    AgreeingIsEqual(ParseLines(Reemit(lines, d) + Fresh(order, d)), d, Keys(lines) * d.Keys + Members(order));
  }

  lemma AgreeingIsEqual(m: Dict, d: Dict, ks: set<string>)
    requires Agrees(m, d, ks) && forall k :: k in d ==> k in ks
    ensures m == d
  {
  }

  /** Parsing the written file gives back the dictionary exactly when its keys are proper and its values clean. */
  lemma FileRoundTrip(raw: string, d: Dict, text: string)
    requires NewText(raw, d, text)
    ensures ParseLines(SplitLines(text)) == d <==> GoodDict(d)
  {
    SplitHasNoBreaks(text);
    ParsedDictIsGood(SplitLines(text));
    if GoodDict(d) {
      var order := NewOrder(raw, d, text);
      GoodFileRoundTrip(raw, d, order);
    }
  }

  // ----- What a put keeps

  /** Dictionaries have distinct keys. */
  ghost predicate DistinctKeys(us: Updates) {
    forall i, j :: 0 <= i < j < |us| ==> us[i].0 != us[j].0
  }

  /** An update that survives printing and parsing. */
  predicate Proper(u: (string, Option<string>)) {
    Deletes(u) || (IsKey(u.0) && Clean(u.1.value))
  }

  /** The value the updates give to a key, if they mention it. */
  lemma {:induction false} UpdatedAt(d: Dict, us: Updates, i: nat)
    requires DistinctKeys(us) && i < |us|
    ensures var r := Updated(d, us);
      if Deletes(us[i]) then us[i].0 !in r else us[i].0 in r && r[us[i].0] == us[i].1.value
  {
    if i < |us| - 1 {
      assert us[..|us| - 1][i] == us[i];
      UpdatedAt(d, us[..|us| - 1], i);
    }
  }

  lemma {:induction false} UpdatedElsewhere(d: Dict, us: Updates, k: string)
    requires forall i :: 0 <= i < |us| ==> us[i].0 != k
    ensures k in Updated(d, us) <==> k in d
    ensures k in d ==> Updated(d, us)[k] == d[k]
  {
    if us != [] {
      UpdatedElsewhere(d, us[..|us| - 1], k);
    }
  }

  lemma UpdatedIsGoodIff(d: Dict, us: Updates)
    requires GoodDict(d) && DistinctKeys(us)
    ensures GoodDict(Updated(d, us)) <==> forall i :: 0 <= i < |us| ==> Proper(us[i])
  {
    var r := Updated(d, us);
    forall i | 0 <= i < |us| ensures GoodDict(r) ==> Proper(us[i]) {
      UpdatedAt(d, us, i);
    }
    forall k | k in r && forall i :: 0 <= i < |us| ==> Proper(us[i]) ensures IsKey(k) && Clean(r[k]) {
      if i :| 0 <= i < |us| && us[i].0 == k {
        UpdatedAt(d, us, i);
        assert Proper(us[i]);
      } else {
        UpdatedElsewhere(d, us, k);
      }
    }
  }

  /** The round trip: the file written by an accepted put parses to the old dictionary with the updates
      applied exactly when every value that is set is clean and its key is proper. */
  lemma PutRoundTripsIff(raw: string, us: Updates, text: string)
    requires DistinctKeys(us)
    requires NewText(raw, Updated(ParseLines(SplitLines(raw)), us), text)
    ensures ParseLines(SplitLines(text)) == Updated(ParseLines(SplitLines(raw)), us)
      <==> forall i :: 0 <= i < |us| ==> Proper(us[i])
  {
    SplitHasNoBreaks(raw);
    ParsedDictIsGood(SplitLines(raw));
    UpdatedIsGoodIff(ParseLines(SplitLines(raw)), us);
    FileRoundTrip(raw, Updated(ParseLines(SplitLines(raw)), us), text);
  }

  /** Accepted puts that do not round trip: a vertical tab, a trailing blank, a key with a final line feed. */
  lemma AcceptedButImproper()
    ensures FirstError([("KEY", Some("a\U{0B}b"))]).None? && !Proper(("KEY", Some("a\U{0B}b")))
    ensures FirstError([("KEY", Some("a "))]).None? && !Proper(("KEY", Some("a ")))
    ensures FirstError([("AB\n", Some("a"))]).None? && !Proper(("AB\n", Some("a")))
  {
    OneUpdate(("KEY", Some("a\U{0B}b")));
    OneUpdate(("KEY", Some("a ")));
    OneUpdate(("AB\n", Some("a")));
    assert IsKey("KEY") && IsKey("AB");
    assert "AB\n"[..2] == "AB" && KeyMatches("AB\n");
    assert IsBreak("a\U{0B}b"[1]) && IsSpace("a "[1]) && !KeyChar("AB\n"[2]);
  }

  lemma OneUpdate(u: (string, Option<string>))
    ensures FirstError([u]) == ErrorOf(u)
  {
  }

  predicate IsOther(line: string) {
    ParseLine(line).None?
  }

  /** Every entry that the dictionary prints is recognised as one. */
  ghost predicate PrintsEntries(d: Dict) {
    forall k :: k in d ==> !IsOther(Entry(k, d[k]))
  }

  lemma OtherReprinted(line: string, d: Dict)
    requires PrintsEntries(d)
    ensures Filter(IsOther, Reprinted(line, d)) == Filter(IsOther, [line])
  {
    var p := ParseLine(line);
    var none: seq<string> := [];
    FilterSnoc(IsOther, none, line);
    assert none + [line] == [line];
    if p.Some? && p.value.0 in d {
      var entry := Entry(p.value.0, d[p.value.0]);
      FilterSnoc(IsOther, none, entry);
      assert none + [entry] == [entry];
    }
  }

  /** Comments, blanks and unrecognised lines are printed in order. */
  lemma OthersSurvive(lines: seq<string>, d: Dict, order: seq<string>)
    requires PrintsEntries(d) && forall k :: k in order ==> k in d
    ensures Filter(IsOther, Reemit(lines, d) + Fresh(order, d)) == Filter(IsOther, lines)
  {
    forall line | line in lines ensures Filter(IsOther, Reprinted(line, d)) == Filter(IsOther, [line]) {
      OtherReprinted(line, d);
    }
    FlatMapKeeps(IsOther, Reprinter(d), lines);
    FreshHasNoOthers(order, d);
    FilterConcat(IsOther, Reemit(lines, d), Fresh(order, d));
  }

  lemma {:induction false} FreshHasNoOthers(order: seq<string>, d: Dict)
    requires PrintsEntries(d) && forall k :: k in order ==> k in d
    ensures Filter(IsOther, Fresh(order, d)) == []
  {
    if order != [] {
      var init, k := order[..|order| - 1], order[|order| - 1];
      FreshHasNoOthers(init, d);
      FilterSnoc(IsOther, Fresh(init, d), Entry(k, d[k]));
    }
  }

  /** Every line of the new file is an untouched other line, or the entry of a key with its one value. */
  ghost predicate Printed(line: string, d: Dict) {
    IsOther(line) || exists k :: k in d && line == Entry(k, d[k])
  }

  lemma ReemitIsPrinted(lines: seq<string>, d: Dict)
    ensures forall i :: 0 <= i < |Reemit(lines, d)| ==> Printed(Reemit(lines, d)[i], d)
  {
    forall i | 0 <= i < |Reemit(lines, d)| ensures Printed(Reemit(lines, d)[i], d) {
      var line := FlatMapFrom(Reprinter(d), lines, Reemit(lines, d)[i]);
    }
  }

  lemma {:induction false} FreshIsPrinted(order: seq<string>, d: Dict)
    requires forall k :: k in order ==> k in d
    ensures forall i :: 0 <= i < |Fresh(order, d)| ==> Printed(Fresh(order, d)[i], d)
  {
    if order != [] {
      FreshIsPrinted(order[..|order| - 1], d);
      assert order[|order| - 1] in d;
    }
  }

  lemma LinesArePrinted(before: seq<string>, d: Dict, order: seq<string>)
    requires forall k :: k in order ==> k in d
    ensures var lines := Reemit(before, d) + Fresh(order, d); forall i :: 0 <= i < |lines| ==> Printed(lines[i], d)
  {
    ReemitIsPrinted(before, d);
    FreshIsPrinted(order, d);
  }

  /** Duplicate keys agree: two lines of a printed file with the same key carry the same value. */
  lemma DuplicatesAgree(a: string, b: string, d: Dict)
    requires GoodDict(d) && Printed(a, d) && Printed(b, d)
    requires ParseLine(a).Some? && ParseLine(b).Some? && ParseLine(a).value.0 == ParseLine(b).value.0
    ensures a == b
  {
    var k :| k in d && a == Entry(k, d[k]);
    var l :| l in d && b == Entry(l, d[l]);
    EntryParses(k, d[k]);
    EntryParses(l, d[l]);
  }

  lemma PrintedIsReprinted(line: string, d: Dict)
    requires GoodDict(d) && Printed(line, d)
    ensures Reprinted(line, d) == [line]
  {
    if !IsOther(line) {
      var k :| k in d && line == Entry(k, d[k]);
      EntryParses(k, d[k]);
    }
  }

  lemma ReemitFixes(lines: seq<string>, d: Dict)
    requires GoodDict(d) && forall i :: 0 <= i < |lines| ==> Printed(lines[i], d)
    ensures Reemit(lines, d) == lines
  {
    forall line | line in lines ensures Reprinted(line, d) == [line] {
      PrintedIsReprinted(line, d);
    }
    FlatMapOfOnes(Reprinter(d), lines);
  }

  lemma {:induction false} KeysAreParsed(lines: seq<string>)
    ensures forall k :: k in Keys(lines) <==> k in ParseLines(lines)
  {
    if lines != [] {
      KeysAreParsed(lines[..|lines| - 1]);
    }
  }

  /** What is printed without breaks is read back line by line. */
  lemma PlainIsRead(raw: string, d: Dict, order: seq<string>)
    requires PlainDict(d) && SortedKeys(order, d.Keys - Keys(OldLines(raw)))
    ensures var lines := Reemit(OldLines(raw), d) + Fresh(order, d);
      var split := SplitLines(Written(lines));
      split == (if lines == [] then [""] else lines) && Written(split) == Written(lines) && Written(lines) != ""
  {
    OldLinesHaveNoBreaks(raw);
    ReemitHasNoBreaks(OldLines(raw), d);
    FreshHasNoBreaks(order, d);
    SplitOfWritten(Reemit(OldLines(raw), d) + Fresh(order, d));
  }

  /** The lines of the file that a dictionary was printed into. */
  lemma PrintedFile(raw: string, d: Dict, order: seq<string>) returns (split: seq<string>)
    requires GoodDict(d) && SortedKeys(order, d.Keys - Keys(OldLines(raw)))
    ensures var lines := Reemit(OldLines(raw), d) + Fresh(order, d);
      && split == SplitLines(Written(lines)) && split == (if lines == [] then [""] else lines)
      && Written(split) == Written(lines) && Written(lines) != ""
    ensures forall i :: 0 <= i < |split| ==> Printed(split[i], d)
    ensures Keys(split) == d.Keys
  {
    var lines := Reemit(OldLines(raw), d) + Fresh(order, d);
    split := SplitLines(Written(lines));
    PlainIsRead(raw, d, order);
    LinesArePrinted(OldLines(raw), d, order);
    BlankIsOther();
    GoodFileRoundTrip(raw, d, order);
    KeysArePrinted(split, d);
  }

  lemma SplitOfWritten(lines: seq<string>)
    requires forall i :: 0 <= i < |lines| ==> NoBreaks(lines[i])
    ensures var split := SplitLines(Written(lines));
      split == (if lines == [] then [""] else lines) && Written(split) == Written(lines) && Written(lines) != ""
  {
    WrittenLines(lines);
    var blank := [""];
    assert blank[1..] == [] && Written(blank) == Lines(blank) == "" + "\n" + Lines(blank[1..]);
  }

  lemma KeysArePrinted(split: seq<string>, d: Dict)
    requires ParseLines(split) == d
    ensures Keys(split) == d.Keys
  {
    KeysAreParsed(split);
  }

  /** A printed file that holds all keys is printed again as it is. */
  lemma PrintedTwice(split: seq<string>, d: Dict, order: seq<string>)
    requires GoodDict(d) && (forall i :: 0 <= i < |split| ==> Printed(split[i], d)) && Keys(split) == d.Keys
    requires SortedKeys(order, d.Keys - Keys(split))
    ensures order == [] && Reemit(split, d) + Fresh(order, d) == split
  {
    ReemitFixes(split, d);
    if order != [] {
      FirstIsMember(order);
    }
  }

  /** Printing the same dictionary over its own file changes nothing. */
  lemma PrintingAgainIsStable(raw: string, d: Dict, text: string, again: string)
    requires GoodDict(d) && NewText(raw, d, text) && NewText(text, d, again)
    ensures again == text
  {
    var order := NewOrder(raw, d, text);
    var split := PrintedFile(raw, d, order);
    var next := NewOrder(text, d, again);
    PrintedTwice(split, d, next);
  }

  lemma PlainPrintsEntries(d: Dict)
    requires PlainDict(d)
    ensures PrintsEntries(d)
  {
    forall k | k in d ensures !IsOther(Entry(k, d[k])) {
      EntryKeyParses(k, d[k]);
    }
  }

  lemma {:induction false} FreshHas(order: seq<string>, d: Dict, k: string)
    requires (forall x :: x in order ==> x in d) && k in order
    ensures Entry(k, d[k]) in Fresh(order, d)
  {
    var init := order[..|order| - 1];
    if k in init {
      FreshHas(init, d, k);
    }
  }

  lemma {:induction false} KeyHasLine(lines: seq<string>, k: string) returns (l: string)
    requires k in Keys(lines)
    ensures l in lines && ParseLine(l).Some? && ParseLine(l).value.0 == k
  {
    var init := lines[..|lines| - 1];
    if k in Keys(init) {
      l := KeyHasLine(init, k);
    } else {
      l := lines[|lines| - 1];
    }
  }

  lemma EveryKeyIsPrinted(before: seq<string>, d: Dict, order: seq<string>, k: string)
    requires SortedKeys(order, d.Keys - Keys(before)) && k in d
    ensures Entry(k, d[k]) in Reemit(before, d) + Fresh(order, d)
  {
    if k in Keys(before) {
      var l := KeyHasLine(before, k);
      FlatMapHas(Reprinter(d), before, l, Entry(k, d[k]));
    } else {
      assert k in order;
      FreshHas(order, d, k);
    }
  }

  /** Only an empty dictionary prints nothing. */
  lemma SomethingIsPrinted(before: seq<string>, d: Dict, order: seq<string>)
    requires SortedKeys(order, d.Keys - Keys(before)) && d != map[]
    ensures Reemit(before, d) + Fresh(order, d) != []
  {
    var k :| k in d;
    EveryKeyIsPrinted(before, d, order, k);
  }

  /** Comments and unrecognised lines of the new file are those of the old one, in order; when no line at all
      is left the file still holds one blank line. */
  lemma CommentsSurvive(raw: string, d: Dict, text: string)
    requires PlainDict(d) && NewText(raw, d, text)
    ensures Filter(IsOther, SplitLines(text)) == Filter(IsOther, OldLines(raw)) || (d == map[] && text == "\n")
  {
    var order := NewOrder(raw, d, text);
    PlainIsRead(raw, d, order);
    PlainPrintsEntries(d);
    OthersSurvive(OldLines(raw), d, order);
    if d != map[] {
      SomethingIsPrinted(OldLines(raw), d, order);
    }
  }

  lemma BlankIsOther()
    ensures IsOther("")
  {
  }
}
