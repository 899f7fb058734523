/** Repeating a put on the secrets file of `cockpit/backend/app/secrets_store.py`: exactly when the second one
    leaves the text as it is. */
module EnvRepeat {
  import opened Lists
  import opened Strings
  import opened EnvFile

  // ----- Lines that may hold breaks

  /** What a written line is read back as: the break characters inside it split it. */
  function Pieces(line: string): seq<string> {
    SplitLines(line + "\n")
  }

  function ReadBack(lines: seq<string>): seq<string> {
    FlatMap(Pieces, lines)
  }

  lemma FirstBreakStays(l: string, k: nat, rest: string)
    requires k < |l| && k == FirstIndex(IsBreak, l)
    ensures FirstIndex(IsBreak, l + "\n" + rest) == k
  {
    assert forall j :: 0 <= j <= k ==> (l + "\n" + rest)[j] == l[j];
  }

  lemma SplitAtBreak(text: string, k: nat, before: string, after: string)
    requires k < |text| && k == FirstIndex(IsBreak, text) && text[k] != '\r'
    requires before == text[..k] && after == text[k + 1..]
    ensures SplitLines(text) == [before] + SplitLines(after)
  {
  }

  lemma SplitAt(l: string, k: nat, rest: string)
    requires '\r' !in l && k < |l| && k == FirstIndex(IsBreak, l)
    ensures SplitLines(l + "\n" + rest) == [l[..k]] + SplitLines(l[k + 1..] + "\n" + rest)
  {
    var text := l + "\n" + rest;
    FirstBreakStays(l, k, rest);
    assert text[k] == l[k] && l[k] in l;
    CutConcat(l, "\n", k + 1);
    CutConcat(l + "\n", rest, k + 1);
    CutConcat(l, "\n", k);
    CutConcat(l + "\n", rest, k);
    SplitAtBreak(text, k, l[..k], l[k + 1..] + "\n" + rest);
  }

  lemma {:induction false} SplitPieces(l: string, rest: string)
    requires '\r' !in l
    ensures SplitLines(l + "\n" + rest) == Pieces(l) + SplitLines(rest)
    decreases |l|
  {
    var k := FirstIndex(IsBreak, l);
    assert l + "\n" + "" == l + "\n";
    if k == |l| {
      SplitFirst(l, rest);
      SplitFirst(l, "");
    } else {
      SplitAt(l, k, rest);
      SplitAt(l, k, "");
      assert l[k + 1..] + "\n" + "" == l[k + 1..] + "\n";
      SplitPieces(l[k + 1..], rest);
      Associate([l[..k]], Pieces(l[k + 1..]), SplitLines(rest));
    }
  }

  ghost predicate NoReturns(lines: seq<string>) {
    forall l :: l in lines ==> '\r' !in l
  }

  lemma {:induction false} LinesReadBack(lines: seq<string>)
    requires NoReturns(lines)
    ensures SplitLines(Lines(lines)) == ReadBack(lines)
  {
    if lines != [] {
      var l, more := lines[0], lines[1..];
      assert lines == [l] + more;
      LinesReadBack(more);
      SplitPieces(l, Lines(more));
      FlatMapConcat(Pieces, [l], more);
      FlatMapOne(Pieces, l);
    }
  }

  lemma PlainPieces(l: string)
    requires NoBreaks(l)
    ensures Pieces(l) == [l]
  {
    SplitFirst(l, "");
    assert l + "\n" + "" == l + "\n";
  }

  lemma SomePiece(l: string)
    ensures Pieces(l) != []
  {
    assert l + "\n" != "";
  }

  /** The first piece of a proper key's entry carries that key. */
  lemma EntryPieces(k: string, v: string)
    requires IsKey(k) && '\r' !in k && '\r' !in v
    ensures Pieces(Entry(k, v)) != []
    ensures ParseLine(Pieces(Entry(k, v))[0]).Some? && ParseLine(Pieces(Entry(k, v))[0]).value.0 == k
  {
    var e := Entry(k, v);
    var b := FirstIndex(IsBreak, e);
    SomePiece(e);
    if b == |e| {
      PlainPieces(e);
      EntryKeyParses(k, v);
    } else {
      KeyComesFirst(k, v, b);
      SplitAt(e, b, "");
      assert e + "\n" + "" == e + "\n";
      EntryKeyParses(k, v[..b - |k| - 1]);
    }
  }

  lemma KeyComesFirst(k: string, v: string, b: nat)
    requires IsKey(k) && b < |Entry(k, v)| && IsBreak(Entry(k, v)[b])
    ensures |k| < b && Entry(k, v)[..b] == Entry(k, v[..b - |k| - 1])
  {
    var e := Entry(k, v);
    if b < |k| {
      assert e[b] == k[b];
      KeyHasNoSpace(k[b]);
    }
    assert e[|k|] == '=';
  }

  /** A key with a final line feed is read back as a line of its own, which is no entry. */
  lemma ImproperPieces(k: string, v: string)
    requires IsKey(k) && '\r' !in k && '\r' !in v
    ensures k in Pieces(Entry(k + "\n", v)) && IsOther(k)
  {
    var e := Entry(k + "\n", v);
    forall j | 0 <= j < |k| ensures !IsBreak(e[j]) && k[j] != '=' {
      assert e[j] == k[j];
      KeyHasNoSpace(k[j]);
    }
    assert e[|k|] == '\n';
    assert FirstIndex(IsBreak, e) == |k|;
    SplitAt(e, |k|, "");
    assert e + "\n" + "" == e + "\n" && e[..|k|] == k;
    KeyHasNoSpace(k[0]);
    KeyHasNoSpace(k[|k| - 1]);
    StripIsIdentity(k);
  }

  // ----- The condition

  predicate Deleted(us: Updates, k: string) {
    exists i :: 0 <= i < |us| && us[i].0 == k && Deletes(us[i])
  }

  predicate Named(us: Updates, k: string) {
    exists i :: 0 <= i < |us| && us[i].0 == k
  }

  /** The line assigns a key that the updates delete. */
  predicate Vanishes(us: Updates, line: string) {
    ParseLine(line).Some? && Deleted(us, ParseLine(line).value.0)
  }

  /** A proper key, and a value without breaks, or with breaks such that all that follows the first one is
      deleted by the same put. */
  predicate Settled(us: Updates, u: (string, Option<string>)) {
    Deletes(u) || (IsKey(u.0) && TailVanishes(us, Pieces(Entry(u.0, u.1.value))))
  }

  predicate TailVanishes(us: Updates, pieces: seq<string>) {
    forall j :: 1 <= j < |pieces| ==> Vanishes(us, pieces[j])
  }

  // ----- What the first put wrote

  ghost predicate Unit(d: Dict, l: string) {
    (IsOther(l) && NoBreaks(l)) || exists k :: k in d && l == Entry(k, d[k])
  }

  ghost predicate Obeys(d: Dict, u: (string, Option<string>)) {
    if Deletes(u) then u.0 !in d else u.0 in d && d[u.0] == u.1.value
  }

  /** Values come from the updates, or are clean and were there before. */
  ghost predicate Sourced(us: Updates, d: Dict, k: string)
    requires k in d
  {
    '\r' !in k && '\r' !in d[k] && (Named(us, k) || (IsKey(k) && Clean(d[k])))
  }

  /** The lines of a file to which a put has been applied. */
  ghost predicate Sheet(us: Updates, d: Dict, lines: seq<string>) {
    && (forall l :: l in lines ==> Unit(d, l))
    && (forall k :: k in d ==> Entry(k, d[k]) in lines && Sourced(us, d, k))
    && (forall i :: 0 <= i < |us| ==> Obeys(d, us[i]))
  }

  lemma {:induction false} AcceptedEach(us: Updates, i: nat)
    requires FirstError(us).None? && i < |us|
    ensures ErrorOf(us[i]).None?
  {
    if i < |us| - 1 {
      AcceptedEach(us[..|us| - 1], i);
    }
  }

  lemma AcceptedHasNoReturn(u: (string, Option<string>))
    requires ErrorOf(u).None? && !Deletes(u)
    ensures '\r' !in u.0 && '\r' !in u.1.value
  {
    if '\r' in u.0 {
      var j :| 0 <= j < |u.0| && u.0[j] == '\r';
      assert IsKey(u.0) || (u.0[|u.0| - 1] == '\n' && IsKey(u.0[..|u.0| - 1]));
      if IsKey(u.0) {
        assert KeyChar(u.0[j]);
      } else {
        assert u.0[..|u.0| - 1][j] == u.0[j];
      }
      KeyHasNoSpace('\r');
    }
  }

  lemma CleanHasNoReturn(k: string, v: string)
    requires IsKey(k) && NoBreaks(v)
    ensures '\r' !in k && '\r' !in v
  {
    if j :| 0 <= j < |k| && k[j] == '\r' {
      KeyHasNoSpace(k[j]);
    }
    if j :| 0 <= j < |v| && v[j] == '\r' {
      assert IsBreak(v[j]);
    }
  }

  lemma UpdatedIsSourced(d0: Dict, us: Updates, k: string)
    requires GoodDict(d0) && DistinctKeys(us) && FirstError(us).None? && k in Updated(d0, us)
    ensures Sourced(us, Updated(d0, us), k)
  {
    if i :| 0 <= i < |us| && us[i].0 == k {
      UpdatedAt(d0, us, i);
      AcceptedEach(us, i);
      AcceptedHasNoReturn(us[i]);
    } else {
      UpdatedElsewhere(d0, us, k);
      CleanHasNoReturn(k, d0[k]);
    }
  }

  lemma {:induction false} LineHasKey(lines: seq<string>, l: string)
    requires l in lines && ParseLine(l).Some?
    ensures ParseLine(l).value.0 in Keys(lines)
  {
    var init := lines[..|lines| - 1];
    if l in init {
      LineHasKey(init, l);
    }
  }

  lemma {:induction false} FreshIsEntries(order: seq<string>, d: Dict, l: string)
    requires (forall x :: x in order ==> x in d) && l in Fresh(order, d)
    ensures exists k :: k in d && l == Entry(k, d[k])
  {
    var init, last := order[..|order| - 1], order[|order| - 1];
    if l in Fresh(init, d) {
      FreshIsEntries(init, d, l);
    } else {
      assert last in order && l == Entry(last, d[last]);
    }
  }

  lemma PrintedIsUnit(before: seq<string>, d: Dict, order: seq<string>, l: string)
    requires (forall i :: 0 <= i < |before| ==> NoBreaks(before[i])) && (forall x :: x in order ==> x in d)
    requires l in Reemit(before, d) + Fresh(order, d)
    ensures Unit(d, l)
  {
    if l in Reemit(before, d) {
      var line := FlatMapFrom(Reprinter(d), before, l);
    } else {
      FreshIsEntries(order, d, l);
    }
  }

  /** The first put leaves a sheet. */
  lemma PutIsSheet(raw: string, us: Updates, d: Dict, order: seq<string>)
    requires DistinctKeys(us) && FirstError(us).None? && d == Updated(ParseLines(SplitLines(raw)), us)
    requires SortedKeys(order, d.Keys - Keys(OldLines(raw)))
    ensures Sheet(us, d, Reemit(OldLines(raw), d) + Fresh(order, d))
  {
    var lines := Reemit(OldLines(raw), d) + Fresh(order, d);
    OldLinesHaveNoBreaks(raw);
    SplitHasNoBreaks(raw);
    ParsedDictIsGood(SplitLines(raw));
    forall l | l in lines ensures Unit(d, l) {
      PrintedIsUnit(OldLines(raw), d, order, l);
    }
    forall k | k in d ensures Entry(k, d[k]) in lines && Sourced(us, d, k) {
      EveryKeyIsPrinted(OldLines(raw), d, order, k);
      UpdatedIsSourced(ParseLines(SplitLines(raw)), us, k);
    }
    forall i | 0 <= i < |us| ensures Obeys(d, us[i]) {
      UpdatedAt(ParseLines(SplitLines(raw)), us, i);
    }
  }

  // ----- The second put

  /** The sheet is read back as `split`, and the same updates give `d2`. */
  ghost predicate Again(us: Updates, d: Dict, lines: seq<string>, split: seq<string>, d2: Dict) {
    && Sheet(us, d, lines) && DistinctKeys(us) && FirstError(us).None?
    && split == (if lines == [] then [""] else ReadBack(lines))
    && (forall l :: l in split ==> NoBreaks(l))
    && d2 == Updated(ParseLines(split), us)
  }

  lemma UnitHasNoReturn(us: Updates, d: Dict, l: string)
    requires Unit(d, l) && forall k :: k in d ==> Sourced(us, d, k)
    ensures '\r' !in l
  {
    if IsOther(l) && NoBreaks(l) {
      if j :| 0 <= j < |l| && l[j] == '\r' {
        assert IsBreak(l[j]);
      }
    }
  }

  lemma SheetReadsBack(us: Updates, d: Dict, lines: seq<string>)
    requires Sheet(us, d, lines)
    ensures SplitLines(Written(lines)) == if lines == [] then [""] else ReadBack(lines)
  {
    forall l | l in lines ensures '\r' !in l {
      UnitHasNoReturn(us, d, l);
    }
    LinesReadBack(lines);
    SplitFirst("", "");
    assert "" + "\n" + "" == "\n";
  }

  /** A key the updates set has its value in both dictionaries; a deleted key is in neither. */
  lemma NamedValue(us: Updates, d: Dict, lines: seq<string>, split: seq<string>, d2: Dict, k: string)
    requires Again(us, d, lines, split, d2) && Named(us, k)
    ensures k in d2 <==> k in d
    ensures k in d2 ==> d2[k] == d[k] && !Deleted(us, k)
    ensures k !in d2 ==> Deleted(us, k)
  {
    var i :| 0 <= i < |us| && us[i].0 == k;
    UpdatedAt(ParseLines(split), us, i);
    assert Obeys(d, us[i]);
    if Deleted(us, k) {
      var j :| 0 <= j < |us| && us[j].0 == k && Deletes(us[j]);
      assert i == j;
    }
  }

  lemma UnnamedValue(us: Updates, d: Dict, lines: seq<string>, split: seq<string>, d2: Dict, k: string)
    requires Again(us, d, lines, split, d2) && !Named(us, k)
    ensures k in d2 <==> k in ParseLines(split)
    ensures k in d2 ==> d2[k] == ParseLines(split)[k]
  {
    UpdatedElsewhere(ParseLines(split), us, k);
  }

  lemma {:induction false} ValueIs(lines: seq<string>, k: string, v: string)
    requires forall l :: l in lines && ParseLine(l).Some? && ParseLine(l).value.0 == k ==> ParseLine(l).value.1 == v
    ensures k in ParseLines(lines) ==> ParseLines(lines)[k] == v
  {
    if lines != [] {
      assert lines[|lines| - 1] in lines;
      ValueIs(lines[..|lines| - 1], k, v);
    }
  }

  /** A line of the second reading with a key that is not deleted is printed again. */
  lemma Survives(us: Updates, d: Dict, lines: seq<string>, split: seq<string>, d2: Dict, l: string)
    requires Again(us, d, lines, split, d2) && l in split && !Vanishes(us, l)
    ensures Reprinted(l, d2) != []
  {
    if ParseLine(l).Some? {
      var k := ParseLine(l).value.0;
      LineHasKey(split, l);
      KeysAreParsed(split);
      if Named(us, k) {
        NamedValue(us, d, lines, split, d2, k);
      } else {
        UnnamedValue(us, d, lines, split, d2, k);
      }
    }
  }

  lemma PieceIsRead(lines: seq<string>, l: string, piece: string)
    requires l in lines && piece in Pieces(l)
    ensures piece in ReadBack(lines)
  {
    FlatMapHas(Pieces, lines, l, piece);
  }

  lemma OthersPiece(l: string, d: Dict)
    requires IsOther(l) && NoBreaks(l)
    ensures FlatMap(Reprinter(d), Pieces(l)) == [l]
  {
    PlainPieces(l);
    FlatMapOne(Reprinter(d), l);
  }

  /** An entry's pieces: the first is printed as the whole entry, then the others. */
  lemma EntryReprints(k: string, v: string, d2: Dict)
    requires IsKey(k) && '\r' !in k && '\r' !in v && k in d2
    ensures Pieces(Entry(k, v)) != []
    ensures FlatMap(Reprinter(d2), Pieces(Entry(k, v)))
      == [Entry(k, d2[k])] + FlatMap(Reprinter(d2), Pieces(Entry(k, v))[1..])
  {
    EntryPieces(k, v);
    var pieces := Pieces(Entry(k, v));
    assert pieces == [pieces[0]] + pieces[1..];
    FlatMapConcat(Reprinter(d2), [pieces[0]], pieces[1..]);
    FlatMapOne(Reprinter(d2), pieces[0]);
  }

  // ----- Settled updates are stable

  ghost predicate AllSettled(us: Updates) {
    forall i :: 0 <= i < |us| ==> Settled(us, us[i])
  }

  lemma FirstOrVanishing(us: Updates, pieces: seq<string>, piece: string)
    requires TailVanishes(us, pieces) && piece in pieces
    ensures piece == pieces[0] || Vanishes(us, piece)
  {
  }

  /** What a piece of a settled sheet says about a key the updates do not name. */
  lemma UnnamedPiece(us: Updates, d: Dict, lines: seq<string>, k: string, l: string, piece: string)
    requires Sheet(us, d, lines) && AllSettled(us) && !Named(us, k) && l in lines && piece in Pieces(l)
    requires ParseLine(piece).Some? && ParseLine(piece).value.0 == k
    ensures k in d && ParseLine(piece).value.1 == d[k] && l == Entry(k, d[k])
  {
    if IsOther(l) && NoBreaks(l) {
      PlainPieces(l);
    } else {
      var x :| x in d && l == Entry(x, d[x]);
      assert Sourced(us, d, x);
      if Named(us, x) {
        var i :| 0 <= i < |us| && us[i].0 == x;
        assert Obeys(d, us[i]) && Settled(us, us[i]);
        EntryPieces(x, d[x]);
        FirstOrVanishing(us, Pieces(l), piece);
      } else {
        EntryParses(x, d[x]);
        PlainPieces(l);
      }
    }
  }

  lemma UnnamedKeepsValue(us: Updates, d: Dict, lines: seq<string>, split: seq<string>, d2: Dict, k: string)
    requires Again(us, d, lines, split, d2) && AllSettled(us) && !Named(us, k) && k in d
    ensures k in d2 && d2[k] == d[k]
  {
    var e := Entry(k, d[k]);
    assert e in lines && Sourced(us, d, k);
    EntryParses(k, d[k]);
    PlainPieces(e);
    PieceIsRead(lines, e, e);
    LineHasKey(split, e);
    KeysAreParsed(split);
    forall l | l in split && ParseLine(l).Some? && ParseLine(l).value.0 == k ensures ParseLine(l).value.1 == d[k] {
      var from := FlatMapFrom(Pieces, lines, l);
      UnnamedPiece(us, d, lines, k, from, l);
    }
    ValueIs(split, k, d[k]);
    UnnamedValue(us, d, lines, split, d2, k);
  }

  lemma SettledUnit(us: Updates, d: Dict, lines: seq<string>, split: seq<string>, d2: Dict, l: string)
    requires Again(us, d, lines, split, d2) && AllSettled(us) && l in lines
    ensures FlatMap(Reprinter(d2), Pieces(l)) == [l]
  {
    if IsOther(l) && NoBreaks(l) {
      OthersPiece(l, d2);
    } else {
      var k :| k in d && l == Entry(k, d[k]);
      assert Sourced(us, d, k);
      if Named(us, k) {
        SettledNamed(us, d, lines, split, d2, k);
      } else {
        UnnamedKeepsValue(us, d, lines, split, d2, k);
        EntryParses(k, d[k]);
        PlainPieces(l);
        FlatMapOne(Reprinter(d2), l);
      }
    }
  }

  lemma SettledNamed(us: Updates, d: Dict, lines: seq<string>, split: seq<string>, d2: Dict, k: string)
    requires Again(us, d, lines, split, d2) && AllSettled(us) && Named(us, k) && k in d
    ensures FlatMap(Reprinter(d2), Pieces(Entry(k, d[k]))) == [Entry(k, d[k])]
  {
    var i :| 0 <= i < |us| && us[i].0 == k;
    assert Obeys(d, us[i]) && Settled(us, us[i]) && Sourced(us, d, k);
    NamedValue(us, d, lines, split, d2, k);
    EntryReprints(k, d[k], d2);
    var tail := Pieces(Entry(k, d[k]))[1..];
    forall piece | piece in tail ensures Reprinted(piece, d2) == [] {
      var j :| 0 <= j < |tail| && tail[j] == piece;
      assert Vanishes(us, Pieces(Entry(k, d[k]))[j + 1]);
      var x := ParseLine(piece).value.0;
      assert Named(us, x);
      NamedValue(us, d, lines, split, d2, x);
    }
    FlatMapOfNone(Reprinter(d2), tail);
  }

  lemma SettledLines(us: Updates, d: Dict, lines: seq<string>, split: seq<string>, d2: Dict)
    requires Again(us, d, lines, split, d2) && AllSettled(us)
    ensures Reemit(split, d2) == if lines == [] then [""] else lines
  {
    if lines == [] {
      BlankIsOther();
      FlatMapOne(Reprinter(d2), "");
    } else {
      forall l | l in lines ensures FlatMap(Reprinter(d2), Pieces(l)) == [l] {
        SettledUnit(us, d, lines, split, d2, l);
      }
      NestedOnes(Reprinter(d2), Pieces, lines);
    }
  }

  lemma SettledKeys(us: Updates, d: Dict, lines: seq<string>, split: seq<string>, d2: Dict, k: string)
    requires Again(us, d, lines, split, d2) && AllSettled(us) && k in d2
    ensures k in Keys(split)
  {
    KeysAreParsed(split);
    if Named(us, k) {
      NamedValue(us, d, lines, split, d2, k);
      var i :| 0 <= i < |us| && us[i].0 == k;
      assert Obeys(d, us[i]) && Settled(us, us[i]) && Sourced(us, d, k);
      EntryPieces(k, d[k]);
      var first := Pieces(Entry(k, d[k]))[0];
      PieceIsRead(lines, Entry(k, d[k]), first);
      LineHasKey(split, first);
    } else {
      UnnamedValue(us, d, lines, split, d2, k);
    }
  }

  lemma NothingIsFresh(us: Updates, d: Dict, lines: seq<string>, split: seq<string>, d2: Dict, order: seq<string>)
    requires Again(us, d, lines, split, d2) && AllSettled(us) && SortedKeys(order, d2.Keys - Keys(split))
    ensures order == []
  {
    if order != [] {
      FirstIsMember(order);
      SettledKeys(us, d, lines, split, d2, order[0]);
    }
  }

  lemma BlankIsWritten()
    ensures Written([""]) == Written([]) == "\n"
  {
    var blank := [""];
    assert blank[1..] == [] && Lines(blank) == "" + "\n" + Lines(blank[1..]);
  }

  lemma SettledIsStable(us: Updates, d: Dict, lines: seq<string>, split: seq<string>, d2: Dict, order: seq<string>)
    requires Again(us, d, lines, split, d2) && AllSettled(us) && SortedKeys(order, d2.Keys - Keys(split))
    ensures Written(Reemit(split, d2) + Fresh(order, d2)) == Written(lines)
  {
    NothingIsFresh(us, d, lines, split, d2, order);
    SettledLines(us, d, lines, split, d2);
    assert Reemit(split, d2) + Fresh(order, d2) == Reemit(split, d2);
    BlankIsWritten();
  }

  // ----- Unsettled updates are not

  lemma SecondHasNoReturn(us: Updates, d: Dict, lines: seq<string>, split: seq<string>, d2: Dict, order: seq<string>)
    requires Again(us, d, lines, split, d2) && SortedKeys(order, d2.Keys - Keys(split))
    ensures NoReturns(Reemit(split, d2) + Fresh(order, d2))
  {
    ParsedDictIsGood(split);
    forall k | k in d2 ensures Sourced(us, d2, k) {
      UpdatedIsSourced(ParseLines(split), us, k);
    }
    forall l | l in Reemit(split, d2) + Fresh(order, d2) ensures '\r' !in l {
      PrintedIsUnit(split, d2, order, l);
      UnitHasNoReturn(us, d2, l);
    }
  }

  lemma SecondReadsBack(us: Updates, d: Dict, lines: seq<string>, split: seq<string>, d2: Dict, order: seq<string>)
    requires Again(us, d, lines, split, d2) && SortedKeys(order, d2.Keys - Keys(split))
    requires Reemit(split, d2) + Fresh(order, d2) != []
    ensures SplitLines(Written(Reemit(split, d2) + Fresh(order, d2)))
      == ReadBack(Reemit(split, d2)) + ReadBack(Fresh(order, d2))
  {
    SecondHasNoReturn(us, d, lines, split, d2, order);
    LinesReadBack(Reemit(split, d2) + Fresh(order, d2));
    FlatMapConcat(Pieces, Reemit(split, d2), Fresh(order, d2));
  }

  /** Parsed keys carry no final white space. */
  lemma ParsedKeyIsTight(l: string)
    requires ParseLine(l).Some?
    ensures var k := ParseLine(l).value.0; k == "" || !IsSpace(k[|k| - 1])
  {
    var s := Strip(l);
    var i := FirstIndex((c: char) => c == '=', s);
    RStripFacts(LStrip(s[..i]));
  }

  lemma OtherStays(l: string, d2: Dict)
    requires IsOther(l) && NoBreaks(l)
    ensures Filter(IsOther, FlatMap(Pieces, Reprinter(d2)(l))) != []
  {
    PlainPieces(l);
    FlatMapOne(Pieces, l);
    FilterIn(IsOther, [l]);
    assert l in [l];
  }

  lemma OthersAreKept(split: seq<string>, d2: Dict)
    requires forall l :: l in split ==> NoBreaks(l)
    ensures |Filter(IsOther, split)| <= |Filter(IsOther, ReadBack(Reemit(split, d2)))|
  {
    forall l | l in split && IsOther(l) ensures Filter(IsOther, FlatMap(Pieces, Reprinter(d2)(l))) != [] {
      OtherStays(l, d2);
    }
    NestedKeepsCount(IsOther, Pieces, Reprinter(d2), split);
  }

  lemma ImproperStem(u: (string, Option<string>)) returns (stem: string)
    requires ErrorOf(u).None? && !Deletes(u) && !IsKey(u.0)
    ensures u.0 == stem + "\n" && IsKey(stem) && '\r' !in stem
  {
    AcceptedHasNoReturn(u);
    stem := u.0[..|u.0| - 1];
    assert u.0 == stem + "\n" && forall c :: c in stem ==> c in u.0;
  }

  lemma ImproperIsNotParsed(lines: seq<string>, stem: string)
    ensures stem + "\n" !in Keys(lines)
  {
    if stem + "\n" in Keys(lines) {
      var l := KeyHasLine(lines, stem + "\n");
      ParsedKeyIsTight(l);
    }
  }

  /** A key with a final line feed is appended again by every put. */
  lemma ImproperIsFresh(us: Updates, d: Dict, lines: seq<string>, split: seq<string>, d2: Dict, order: seq<string>,
                        i: nat)
    requires Again(us, d, lines, split, d2) && SortedKeys(order, d2.Keys - Keys(split))
    requires i < |us| && !Deletes(us[i]) && !IsKey(us[i].0)
    ensures exists l :: l in ReadBack(Fresh(order, d2)) && IsOther(l)
  {
    var k, v := us[i].0, us[i].1.value;
    AcceptedEach(us, i);
    AcceptedHasNoReturn(us[i]);
    var stem := ImproperStem(us[i]);
    UpdatedAt(ParseLines(split), us, i);
    ImproperIsNotParsed(split, stem);
    assert k in order;
    FreshHas(order, d2, k);
    ImproperPieces(stem, v);
    PieceIsRead(Fresh(order, d2), Entry(k, v), stem);
  }

  lemma ImproperGrows(us: Updates, d: Dict, lines: seq<string>, split: seq<string>, d2: Dict, order: seq<string>,
                      i: nat)
    requires Again(us, d, lines, split, d2) && SortedKeys(order, d2.Keys - Keys(split))
    requires i < |us| && !Deletes(us[i]) && !IsKey(us[i].0)
    ensures SplitLines(Written(Reemit(split, d2) + Fresh(order, d2))) != split
  {
    ImproperIsFresh(us, d, lines, split, d2, order, i);
    SecondReadsBack(us, d, lines, split, d2, order);
    OthersAreKept(split, d2);
    FilterConcat(IsOther, ReadBack(Reemit(split, d2)), ReadBack(Fresh(order, d2)));
    FilterIn(IsOther, ReadBack(Fresh(order, d2)));
  }

  /** No line of the sheet gets shorter when it is read back and printed twice. */
  lemma UnitGrows(us: Updates, d: Dict, lines: seq<string>, split: seq<string>, d2: Dict, l: string)
    requires Again(us, d, lines, split, d2) && l in lines
    requires forall i :: 0 <= i < |us| && !Deletes(us[i]) ==> IsKey(us[i].0)
    ensures |Pieces(l)| <= |ReadBack(FlatMap(Reprinter(d2), Pieces(l)))|
  {
    if IsOther(l) && NoBreaks(l) {
      OthersPiece(l, d2);
      FlatMapOne(Pieces, l);
    } else {
      var k :| k in d && l == Entry(k, d[k]);
      assert Sourced(us, d, k);
      if Named(us, k) {
        NamedGrows(us, d, lines, split, d2, k);
      } else {
        UnnamedGrows(us, d, lines, split, d2, k);
      }
    }
  }

  lemma UnnamedGrows(us: Updates, d: Dict, lines: seq<string>, split: seq<string>, d2: Dict, k: string)
    requires Again(us, d, lines, split, d2) && k in d && !Named(us, k)
    ensures var l := Entry(k, d[k]); |Pieces(l)| <= |ReadBack(FlatMap(Reprinter(d2), Pieces(l)))|
  {
    var l := Entry(k, d[k]);
    assert l in lines && Sourced(us, d, k);
    EntryParses(k, d[k]);
    PlainPieces(l);
    PieceIsRead(lines, l, l);
    LineHasKey(split, l);
    KeysAreParsed(split);
    UnnamedValue(us, d, lines, split, d2, k);
    FlatMapOne(Reprinter(d2), l);
    FlatMapOne(Pieces, Entry(k, d2[k]));
    SomePiece(Entry(k, d2[k]));
  }

  lemma NamedGrows(us: Updates, d: Dict, lines: seq<string>, split: seq<string>, d2: Dict, k: string)
    requires Again(us, d, lines, split, d2) && k in d && Named(us, k)
    requires forall i :: 0 <= i < |us| && !Deletes(us[i]) ==> IsKey(us[i].0)
    ensures Pieces(Entry(k, d[k])) != []
    ensures ReadBack(FlatMap(Reprinter(d2), Pieces(Entry(k, d[k]))))
      == Pieces(Entry(k, d[k])) + ReadBack(FlatMap(Reprinter(d2), Pieces(Entry(k, d[k]))[1..]))
  {
    var i :| 0 <= i < |us| && us[i].0 == k;
    assert Obeys(d, us[i]) && Sourced(us, d, k);
    NamedValue(us, d, lines, split, d2, k);
    EntryReprints(k, d[k], d2);
    FlatMapConcat(Pieces, [Entry(k, d[k])], FlatMap(Reprinter(d2), Pieces(Entry(k, d[k]))[1..]));
    FlatMapOne(Pieces, Entry(k, d[k]));
  }

  /** An entry with a surviving piece gets longer. */
  lemma UnsettledGrows(us: Updates, d: Dict, lines: seq<string>, split: seq<string>, d2: Dict, i: nat)
    requires Again(us, d, lines, split, d2) && i < |us| && !Settled(us, us[i])
    requires forall j :: 0 <= j < |us| && !Deletes(us[j]) ==> IsKey(us[j].0)
    ensures var l := Entry(us[i].0, us[i].1.value);
      l in lines && |Pieces(l)| < |ReadBack(FlatMap(Reprinter(d2), Pieces(l)))|
  {
    var k := us[i].0;
    assert Obeys(d, us[i]);
    var l := Entry(k, d[k]);
    var pieces := Pieces(l);
    NamedGrows(us, d, lines, split, d2, k);
    var j :| 1 <= j < |pieces| && !Vanishes(us, pieces[j]);
    var tail := pieces[1..];
    assert tail[j - 1] == pieces[j] && pieces[j] in pieces;
    PieceIsRead(lines, l, pieces[j]);
    Survives(us, d, lines, split, d2, pieces[j]);
    var x := Reprinted(pieces[j], d2)[0];
    FlatMapHas(Reprinter(d2), tail, pieces[j], x);
    SomePiece(x);
    FlatMapHas(Pieces, FlatMap(Reprinter(d2), tail), x, Pieces(x)[0]);
  }

  lemma TailGrows(us: Updates, d: Dict, lines: seq<string>, split: seq<string>, d2: Dict, order: seq<string>, i: nat)
    requires Again(us, d, lines, split, d2) && SortedKeys(order, d2.Keys - Keys(split))
    requires i < |us| && !Settled(us, us[i])
    requires forall j :: 0 <= j < |us| && !Deletes(us[j]) ==> IsKey(us[j].0)
    ensures SplitLines(Written(Reemit(split, d2) + Fresh(order, d2))) != split
  {
    UnsettledGrows(us, d, lines, split, d2, i);
    forall l | l in lines ensures |Pieces(l)| <= |ReadBack(FlatMap(Reprinter(d2), Pieces(l)))| {
      UnitGrows(us, d, lines, split, d2, l);
    }
    NestedGrows(Pieces, Reprinter(d2), lines);
    assert |ReadBack(Reemit(split, d2))| > |split|;
    if Reemit(split, d2) + Fresh(order, d2) != [] {
      SecondReadsBack(us, d, lines, split, d2, order);
    }
  }

  // ----- The theorem

  lemma SecondIsStableIff(us: Updates, d: Dict, lines: seq<string>, split: seq<string>, d2: Dict, order: seq<string>)
    requires Again(us, d, lines, split, d2) && SortedKeys(order, d2.Keys - Keys(split))
    requires split == SplitLines(Written(lines))
    ensures Written(Reemit(split, d2) + Fresh(order, d2)) == Written(lines) <==> AllSettled(us)
  {
    if AllSettled(us) {
      SettledIsStable(us, d, lines, split, d2, order);
    } else if i: nat :| i < |us| && !Deletes(us[i]) && !IsKey(us[i].0) {
      ImproperGrows(us, d, lines, split, d2, order, i);
    } else {
      var i: nat :| i < |us| && !Settled(us, us[i]);
      TailGrows(us, d, lines, split, d2, order, i);
    }
  }

  lemma FirstIsRead(raw: string, us: Updates, d: Dict, order: seq<string>, lines: seq<string>)
    requires DistinctKeys(us) && FirstError(us).None? && d == Updated(ParseLines(SplitLines(raw)), us)
    requires SortedKeys(order, d.Keys - Keys(OldLines(raw))) && lines == Reemit(OldLines(raw), d) + Fresh(order, d)
    ensures var split := SplitLines(Written(lines)); Again(us, d, lines, split, Updated(ParseLines(split), us))
    ensures OldLines(Written(lines)) == SplitLines(Written(lines))
  {
    PutIsSheet(raw, us, d, order);
    SheetReadsBack(us, d, lines);
    SplitHasNoBreaks(Written(lines));
    assert Written(lines) != "";
  }

  /** Repeating an accepted put leaves the text unchanged exactly when all its updates are settled. */
  lemma PutAgainIsStableIff(raw: string, us: Updates, text: string, again: string)
    requires DistinctKeys(us) && FirstError(us).None?
    requires NewText(raw, Updated(ParseLines(SplitLines(raw)), us), text)
    requires NewText(text, Updated(ParseLines(SplitLines(text)), us), again)
    ensures again == text <==> AllSettled(us)
  {
    var d := Updated(ParseLines(SplitLines(raw)), us);
    var order := NewOrder(raw, d, text);
    var lines := Reemit(OldLines(raw), d) + Fresh(order, d);
    FirstIsRead(raw, us, d, order, lines);
    var split := SplitLines(text);
    var d2 := Updated(ParseLines(split), us);
    var next := NewOrder(text, d2, again);
    SecondIsStableIff(us, d, lines, split, d2, next);
  }

  lemma BreakAfter(head: string, tail: string)
    requires NoBreaks(head) && tail != "" && IsBreak(tail[0])
    ensures FirstIndex(IsBreak, head + tail) == |head|
  {
    assert forall j :: 0 <= j < |head| ==> (head + tail)[j] == head[j];
    assert (head + tail)[|head|] == tail[0];
  }

  lemma BrokenInTwo(head: string, c: char, line: string)
    requires NoBreaks(head) && IsBreak(c) && c != '\r' && NoBreaks(line)
    ensures Pieces(head + ([c] + line)) == [head, line]
  {
    var tail := [c] + (line + "\n");
    Associate([c], line, "\n");
    Associate(head, [c] + line, "\n");
    BreakAfter(head, tail);
    CutConcat(head, tail, |head|);
    assert (head + tail)[|head| + 1..] == line + "\n";
    SplitAtBreak(head + tail, |head|, head, line + "\n");
    PlainPieces(line);
  }

  /** Breaks alone do not unsettle: what follows one here is deleted by the same put. */
  lemma SettledThoughBroken(k: string, v: string, other: string, w: string)
    requires IsKey(k) && NoBreaks(v) && IsKey(other) && Clean(w)
    ensures AllSettled([(k, Some(v + ['\U{0B}'] + Entry(other, w))), (other, None)])
  {
    var us: Updates := [(k, Some(v + ['\U{0B}'] + Entry(other, w))), (other, None)];
    EntryParses(other, w);
    EntryHasNoBreaks(k, v);
    BrokenInTwo(Entry(k, v), '\U{0B}', Entry(other, w));
    Associate(k + "=", v, ['\U{0B}'] + Entry(other, w));
    Associate(v, ['\U{0B}'], Entry(other, w));
    assert us[0].0 == k && !Deletes(us[0]);
    assert us[1] == (other, None) && Deletes(us[1]);
    assert Deleted(us, other);
  }

  /** An accepted put that changes the text when it is repeated: its key ends in a line feed. */
  lemma AcceptedButUnsettled()
    ensures FirstError([("AB\n", Some("a"))]).None? && !AllSettled([("AB\n", Some("a"))])
  {
    AcceptedButImproper();
    var us: Updates := [("AB\n", Some("a"))];
    assert !KeyChar("AB\n"[2]);
    assert us[0].0 == "AB\n" && !Settled(us, us[0]);
  }

  /** In particular: proper keys and values without breaks. A trailing blank does no harm here. */
  lemma BreakFreeIsSettled(us: Updates)
    requires forall i :: 0 <= i < |us| && !Deletes(us[i]) ==> IsKey(us[i].0) && NoBreaks(us[i].1.value)
    ensures AllSettled(us)
  {
    forall i | 0 <= i < |us| && !Deletes(us[i]) ensures Settled(us, us[i]) {
      EntryHasNoBreaks(us[i].0, us[i].1.value);
      PlainPieces(Entry(us[i].0, us[i].1.value));
    }
  }
}
