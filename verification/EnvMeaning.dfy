/** What the secrets file of `cockpit/backend/app/secrets_store.py` says, and what a put does to it, spelled out:
    the grammar of its lines, the lines of the new file, refusals and values. */
module EnvMeaning {
  import opened Lists
  import opened Strings
  import Sorting
  import opened EnvFile

  // ----- The grammar of a line

  predicate Blank(s: string) {
    forall c :: c in s ==> IsSpace(c)
  }

  lemma {:induction false} LStripSplits(s: string) returns (a: string)
    ensures s == a + LStrip(s) && Blank(a)
    ensures LStrip(s) == "" || !IsSpace(LStrip(s)[0])
  {
    if s != "" && IsSpace(s[0]) {
      var b := LStripSplits(s[1..]);
      a := [s[0]] + b;
      assert s == [s[0]] + s[1..];
    } else {
      a := "";
    }
  }

  lemma {:induction false} RStripSplits(s: string) returns (d: string)
    ensures s == RStrip(s) + d && Blank(d)
    ensures RStrip(s) == "" || !IsSpace(RStrip(s)[|RStrip(s)| - 1])
  {
    if s != "" && IsSpace(s[|s| - 1]) {
      var b := RStripSplits(s[..|s| - 1]);
      d := b + [s[|s| - 1]];
      assert s == s[..|s| - 1] + [s[|s| - 1]];
    } else {
      d := "";
    }
  }

  lemma {:induction false} LStripBefore(a: string, m: string)
    requires Blank(a) && (m == "" || !IsSpace(m[0]))
    ensures LStrip(a + m) == m
  {
    if a == "" {
      assert a + m == m;
    } else {
      assert a == [a[0]] + a[1..] && a[0] in a;
      assert forall c :: c in a[1..] ==> c in a;
      LStripBefore(a[1..], m);
      assert (a + m)[1..] == a[1..] + m;
    }
  }

  lemma {:induction false} RStripBehind(m: string, d: string)
    requires Blank(d) && (m == "" || !IsSpace(m[|m| - 1]))
    ensures RStrip(m + d) == m
  {
    if d == "" {
      assert m + d == m;
    } else {
      var init := d[..|d| - 1];
      assert d == init + [d[|d| - 1]] && d[|d| - 1] in d;
      assert forall c :: c in init ==> c in d;
      RStripBehind(m, init);
      assert (m + d)[..|m + d| - 1] == m + init;
    }
  }

  /** A text between blanks, without blanks at its ends. */
  lemma StripOf(a: string, m: string, d: string)
    requires Blank(a) && Blank(d) && m != "" && !IsSpace(m[0]) && !IsSpace(m[|m| - 1])
    ensures Strip(a + (m + d)) == m
  {
    LStripBefore(a, m + d);
    RStripBehind(m, d);
  }

  /** Blanks, the key, blanks, the sign, the value as it stands, blanks. */
  ghost predicate Assigns(line: string, k: string, v: string) {
    && IsKey(k) && (v == "" || !IsSpace(v[|v| - 1]))
    && exists a, b, d :: Blank(a) && Blank(b) && Blank(d) && line == a + ((k + b + "=" + v) + d)
  }

  lemma SignIsFirst(k: string, b: string, v: string)
    requires IsKey(k) && Blank(b)
    ensures FirstIndex((c: char) => c == '=', k + b + "=" + v) == |k + b|
  {
    var s := k + b + "=" + v;
    assert s[|k + b|] == '=';
    forall j | 0 <= j < |k + b| ensures s[j] != '=' {
      if j < |k| {
        assert s[j] == k[j];
        KeyHasNoSpace(k[j]);
      } else {
        assert s[j] == b[j - |k|] && b[j - |k|] in b;
      }
    }
  }

  /** How a stripped line is taken apart. */
  lemma PartsAreParsed(line: string, left: string, v: string)
    requires Strip(line) == left + "=" + v && left != "" && left[0] != '#'
    requires FirstIndex((c: char) => c == '=', left + "=" + v) == |left| && KeyMatches(Strip(left))
    ensures ParseLine(line) == Some((Strip(left), v))
  {
    var s := left + "=" + v;
    assert s[..|left|] == left && s[|left| + 1..] == v && s[0] == left[0];
  }

  lemma AssignmentIsStripped(a: string, k: string, b: string, v: string, d: string)
    requires Blank(a) && Blank(b) && Blank(d) && IsKey(k) && (v == "" || !IsSpace(v[|v| - 1]))
    ensures Strip(a + ((k + b + "=" + v) + d)) == k + b + "=" + v && Strip(k + b) == k && k[0] != '#'
  {
    var s := k + b + "=" + v;
    KeyHasNoSpace(k[0]);
    KeyHasNoSpace(k[|k| - 1]);
    assert s[0] == k[0] && s[|s| - 1] == if v == "" then '=' else v[|v| - 1];
    StripOf(a, s, d);
    StripOf("", k, b);
    assert "" + (k + b) == k + b;
  }

  lemma AssignmentIsParsed(line: string, k: string, v: string)
    requires Assigns(line, k, v)
    ensures ParseLine(line) == Some((k, v))
  {
    var a, b, d :| Blank(a) && Blank(b) && Blank(d) && line == a + ((k + b + "=" + v) + d);
    AssignmentIsStripped(a, k, b, v, d);
    SignIsFirst(k, b, v);
    PartsAreParsed(line, k + b, v);
  }

  lemma KeyIsSplit(left: string) returns (b: string)
    requires left != "" && !IsSpace(left[0])
    ensures left == Strip(left) + b && Blank(b)
  {
    assert LStrip(left) == left;
    b := RStripSplits(left);
  }

  /** The parts of a parsed line. */
  lemma ParsedParts(line: string, k: string, v: string) returns (left: string)
    requires ParseLine(line) == Some((k, v)) && k != ""
    ensures left != "" && Strip(line) == left + "=" + v && Strip(left) == k
  {
    var s := Strip(line);
    var i := FirstIndex((c: char) => c == '=', s);
    left := s[..i];
    assert Strip("") == "";
    assert s == s[..i] + "=" + s[i + 1..];
  }

  lemma LineIsSplit(line: string) returns (a: string, d: string)
    ensures line == a + (Strip(line) + d) && Blank(a) && Blank(d)
    ensures Strip(line) != "" ==> !IsSpace(Strip(line)[0])
  {
    a := LStripSplits(line);
    d := RStripSplits(LStrip(line));
  }

  lemma ParsedIsAssignment(line: string, k: string, v: string)
    requires ParseLine(line) == Some((k, v)) && NoBreaks(line)
    ensures Assigns(line, k, v)
  {
    ParsedIsClean(line);
    var left := ParsedParts(line, k, v);
    var a, d := LineIsSplit(line);
    assert Strip(line)[0] == left[0];
    var b := KeyIsSplit(left);
    assert line == a + ((k + b + "=" + v) + d);
  }

  /** A line of the file assigns a value to a key exactly when it has this form; all other lines are kept as they
      are by every put. */
  lemma ParseLineIff(line: string, k: string, v: string)
    requires NoBreaks(line)
    ensures ParseLine(line) == Some((k, v)) <==> Assigns(line, k, v)
  {
    if Assigns(line, k, v) {
      AssignmentIsParsed(line, k, v);
    }
    if ParseLine(line) == Some((k, v)) {
      ParsedIsAssignment(line, k, v);
    }
  }

  predicate CapitalDigitOrLine(c: char) {
    'A' <= c <= 'Z' || '0' <= c <= '9' || c == '_'
  }

  /** A capital letter, and then 1 to 63 capitals, digits or underscores. */
  predicate KeyParts(c: char, rest: string) {
    'A' <= c <= 'Z' && 1 <= |rest| <= 63 && forall x :: x in rest ==> CapitalDigitOrLine(x)
  }

  lemma PartsAreKey(c: char, rest: string)
    ensures IsKey([c] + rest) <==> KeyParts(c, rest)
  {
    var k := [c] + rest;
    assert forall i :: 1 <= i < |k| ==> k[i] == rest[i - 1] && rest[i - 1] in rest;
    if IsKey(k) {
      forall x | x in rest ensures CapitalDigitOrLine(x) {
        var i :| 0 <= i < |rest| && rest[i] == x;
        assert KeyChar(k[i + 1]);
      }
    }
  }

  lemma KeyIff(k: string)
    ensures IsKey(k) <==> exists c, rest :: k == [c] + rest && KeyParts(c, rest)
  {
    if IsKey(k) {
      assert k == [k[0]] + k[1..];
      PartsAreKey(k[0], k[1..]);
    }
    if c, rest :| k == [c] + rest && KeyParts(c, rest) {
      PartsAreKey(c, rest);
    }
  }

  // ----- The dictionary of a file

  /** The last line that assigns the key says its value. */
  ghost predicate SaysLast(parse: string -> Option<(string, string)>, lines: seq<string>, k: string, v: string) {
    exists n: nat :: n < |lines| && parse(lines[n]) == Some((k, v))
      && forall m :: n < m < |lines| ==> !OfKey(parse(lines[m]), k)
  }

  predicate OfKey(p: Option<(string, string)>, k: string) {
    p.Some? && p.value.0 == k
  }

  lemma SaysLastStep(parse: string -> Option<(string, string)>, init: seq<string>, line: string, k: string, v: string)
    ensures SaysLast(parse, init + [line], k, v) <==>
      if OfKey(parse(line), k) then parse(line).value.1 == v else SaysLast(parse, init, k, v)
  {
    var lines, n := init + [line], |init|;
    assert lines[n] == line && forall m :: 0 <= m < n ==> lines[m] == init[m];
    if SaysLast(parse, init, k, v) && !OfKey(parse(line), k) {
      var i: nat :| i < n && parse(init[i]) == Some((k, v)) && forall m :: i < m < n ==> !OfKey(parse(init[m]), k);
      assert parse(lines[i]) == Some((k, v));
    }
    if parse(line) == Some((k, v)) {
      assert parse(lines[n]) == Some((k, v));
    }
  }

  lemma {:induction false} DictIs(lines: seq<string>, k: string, v: string)
    ensures k in ParseLines(lines) && ParseLines(lines)[k] == v <==> SaysLast(ParseLine, lines, k, v)
  {
    if lines != [] {
      var init := lines[..|lines| - 1];
      DictIs(init, k, v);
      SaysLastStep(ParseLine, init, lines[|lines| - 1], k, v);
      assert lines == init + [lines[|lines| - 1]];
    }
  }

  // ----- What a put does

  /** An update that a put refuses, and with which error. */
  ghost predicate Refused(u: (string, Option<string>), e: PutResult) {
    var (k, v) := u;
    if IsKey(k) || (exists stem :: IsKey(stem) && k == stem + "\n")
    then e == BadValue && v.Some? && v.value != "" && ('\n' in v.value || '\r' in v.value)
    else e == BadKey(k)
  }

  lemma ErrorIsRefusal(u: (string, Option<string>), e: PutResult)
    ensures ErrorOf(u) == Some(e) <==> Refused(u, e)
  {
    var k := u.0;
    if k != "" && k[|k| - 1] == '\n' && IsKey(k[..|k| - 1]) {
      assert k == k[..|k| - 1] + "\n";
    }
    if stem :| IsKey(stem) && k == stem + "\n" {
      assert k[..|k| - 1] == stem && k[|k| - 1] == '\n';
    }
  }

  /** A put is refused by the first update that offends, and by none else. */
  lemma {:induction false} PutIsRefusedIff(us: Updates, e: PutResult)
    ensures FirstError(us) == Some(e) <==>
      exists n: nat :: n < |us| && Refused(us[n], e) && forall m, x :: 0 <= m < n ==> !Refused(us[m], x)
  {
    if us != [] {
      var n := |us| - 1;
      var init := us[..n];
      PutIsRefusedIff(init, e);
      ErrorIsRefusal(us[n], e);
      NoErrorIff(init);
      assert forall m :: 0 <= m < n ==> init[m] == us[m];
      if FirstError(init).Some? {
        var x := FirstError(init).value;
        PutIsRefusedIff(init, x);
      }
    }
  }

  lemma {:induction false} NoErrorIff(us: Updates)
    ensures FirstError(us).None? <==> forall m, x :: 0 <= m < |us| ==> !Refused(us[m], x)
  {
    if us != [] {
      var n := |us| - 1;
      NoErrorIff(us[..n]);
      forall x ensures ErrorOf(us[n]) == Some(x) <==> Refused(us[n], x) {
        ErrorIsRefusal(us[n], x);
      }
      assert forall m :: 0 <= m < n ==> us[..n][m] == us[m];
      if ErrorOf(us[n]).Some? {
        assert Refused(us[n], ErrorOf(us[n]).value);
      }
    }
  }

  function LineFor(line: string, d: Dict): string {
    var p := ParseLine(line);
    if p.Some? && p.value.0 in d then p.value.0 + "=" + d[p.value.0] else line
  }

  predicate Stays(line: string, d: Dict) {
    ParseLine(line).Some? ==> ParseLine(line).value.0 in d
  }

  lemma {:induction false} ReemitIs(lines: seq<string>, d: Dict)
    ensures Reemit(lines, d) == Map((line: string) => LineFor(line, d), Filter((line: string) => Stays(line, d), lines))
  {
    if lines != [] {
      var init, line := lines[..|lines| - 1], lines[|lines| - 1];
      ReemitIs(init, d);
      var kept := Filter((x: string) => Stays(x, d), init);
      MapSnoc((x: string) => LineFor(x, d), kept, line);
      assert kept + [] == kept;
    }
  }

  lemma {:induction false} FreshIs(order: seq<string>, d: Dict)
    requires forall k :: k in order ==> k in d
    ensures |Fresh(order, d)| == |order|
    ensures forall i :: 0 <= i < |order| ==> Fresh(order, d)[i] == order[i] + "=" + d[order[i]]
  {
    if order != [] {
      assert order[|order| - 1] in order;
      FreshIs(order[..|order| - 1], d);
    }
  }

  lemma KeysAreAssigned(lines: seq<string>, k: string)
    ensures k in Keys(lines) <==> exists v :: SaysLast(ParseLine, lines, k, v)
  {
    KeysAreParsed(lines);
    if k in ParseLines(lines) {
      DictIs(lines, k, ParseLines(lines)[k]);
    }
    if v :| SaysLast(ParseLine, lines, k, v) {
      DictIs(lines, k, v);
    }
  }

  /** The new file, line by line: the old lines in order without those of deleted keys, the assigned ones with their
      new value, and then the keys that no old line has, ascending. */
  lemma NewFileIs(raw: string, d: Dict, text: string) returns (order: seq<string>)
    requires NewText(raw, d, text)
    ensures Sorting.Ascending(Sorting.LexLe, order) && Distinct(order)
    ensures forall k :: k in order <==> k in d && forall v :: !SaysLast(ParseLine, OldLines(raw), k, v)
    ensures var kept := Filter((line: string) => Stays(line, d), OldLines(raw));
      text == Written(Map((line: string) => LineFor(line, d), kept) + Fresh(order, d))
  {
    order := NewOrder(raw, d, text);
    ReemitIs(OldLines(raw), d);
    forall k ensures k in Keys(OldLines(raw)) <==> exists v :: SaysLast(ParseLine, OldLines(raw), k, v) {
      KeysAreAssigned(OldLines(raw), k);
    }
  }

  /** The key has its new value, is gone when its update says so, and is as before when no update names it. */
  ghost predicate Means(before: Dict, us: Updates, after: Dict, k: string) {
    && (forall i :: 0 <= i < |us| && us[i].0 == k ==>
          if us[i].1 == None || us[i].1 == Some("") then k !in after else k in after && after[k] == us[i].1.value)
    && ((forall i :: 0 <= i < |us| ==> us[i].0 != k) ==>
          (k in after <==> k in before) && (k in before ==> after[k] == before[k]))
  }

  lemma UpdatedMeans(d: Dict, us: Updates, k: string)
    requires DistinctKeys(us)
    ensures Means(d, us, Updated(d, us), k)
  {
    forall i | 0 <= i < |us| && us[i].0 == k
      ensures if Deletes(us[i]) then k !in Updated(d, us)
              else k in Updated(d, us) && Updated(d, us)[k] == us[i].1.value
    {
      UpdatedAt(d, us, i);
    }
    if forall i :: 0 <= i < |us| ==> us[i].0 != k {
      UpdatedElsewhere(d, us, k);
    }
  }

  /** What an accepted put of proper updates leaves for each key, read back from the new file. */
  lemma PutMeans(raw: string, us: Updates, text: string, k: string)
    requires DistinctKeys(us) && forall i :: 0 <= i < |us| ==> Proper(us[i])
    requires NewText(raw, Updated(ParseLines(SplitLines(raw)), us), text)
    ensures Means(ParseLines(SplitLines(raw)), us, ParseLines(SplitLines(text)), k)
  {
    PutRoundTripsIff(raw, us, text);
    UpdatedMeans(ParseLines(SplitLines(raw)), us, k);
  }
}
