/** Comments under a put on the secrets file of `cockpit/backend/app/secrets_store.py`: exactly when they survive. */
module EnvComments {
  import opened Lists
  import opened Strings
  import opened EnvFile
  import opened EnvRepeat

  /** A proper key, and a value without breaks, or with breaks such that each line they open is an entry. */
  predicate Tidy(u: (string, Option<string>)) {
    Deletes(u) || (IsKey(u.0) && TailIsEntries(Pieces(Entry(u.0, u.1.value))))
  }

  predicate TailIsEntries(pieces: seq<string>) {
    forall j :: 1 <= j < |pieces| ==> !IsOther(pieces[j])
  }

  lemma NoOtherIff(pieces: seq<string>)
    ensures Filter(IsOther, pieces) == [] <==> forall piece :: piece in pieces ==> !IsOther(piece)
  {
    FilterIn(IsOther, pieces);
    if Filter(IsOther, pieces) != [] {
      assert Filter(IsOther, pieces)[0] in pieces;
    }
  }

  /** In other words: the printed update is read back without a line that is no entry. */
  lemma TidyIffNoOther(u: (string, Option<string>))
    requires ErrorOf(u).None? && !Deletes(u)
    ensures Tidy(u) <==> Filter(IsOther, Pieces(Entry(u.0, u.1.value))) == []
  {
    var pieces := Pieces(Entry(u.0, u.1.value));
    AcceptedHasNoReturn(u);
    NoOtherIff(pieces);
    if IsKey(u.0) {
      EntryPieces(u.0, u.1.value);
      assert forall j :: 0 <= j < |pieces| ==> pieces[j] in pieces;
    } else {
      var stem := ImproperStem(u);
      ImproperPieces(stem, u.1.value);
    }
  }

  /** A key's final line feed is stripped with the blanks around the key. */
  lemma ImproperParses(stem: string, v: string)
    requires IsKey(stem)
    ensures !IsOther(Entry(stem + "\n", v))
  {
    var k := stem + "\n";
    var s := Entry(k, RStrip(v));
    KeyHasNoSpace(stem[0]);
    KeyHasNoSpace(stem[|stem| - 1]);
    RStripAfter(k + "=", v);
    assert Entry(k, v)[0] == stem[0];
    assert s[|k|] == '=';
    forall j | 0 <= j < |k| ensures s[j] != '=' {
      assert j < |stem| ==> s[j] == stem[j] && KeyChar(stem[j]);
    }
    assert FirstIndex((c: char) => c == '=', s) == |k| && s[..|k|] == k;
    StripIsIdentity(stem);
    assert k[..|k| - 1] == stem;
  }

  lemma AcceptedIsEntry(u: (string, Option<string>))
    requires ErrorOf(u).None? && !Deletes(u)
    ensures !IsOther(Entry(u.0, u.1.value))
  {
    if IsKey(u.0) {
      EntryKeyParses(u.0, u.1.value);
    } else {
      var stem := ImproperStem(u);
      ImproperParses(stem, u.1.value);
    }
  }

  /** Where the entry of a key of the sheet comes from. */
  lemma EntryIsFrom(us: Updates, d: Dict, lines: seq<string>, k: string)
    requires Sheet(us, d, lines) && k in d && Named(us, k)
    ensures exists i: nat :: i < |us| && us[i].0 == k && !Deletes(us[i]) && us[i].1.value == d[k]
  {
    var i :| 0 <= i < |us| && us[i].0 == k;
    assert Obeys(d, us[i]);
  }

  lemma SheetPrintsEntries(us: Updates, d: Dict, lines: seq<string>)
    requires Sheet(us, d, lines) && FirstError(us).None?
    ensures PrintsEntries(d)
  {
    forall k | k in d ensures !IsOther(Entry(k, d[k])) {
      assert Sourced(us, d, k);
      if Named(us, k) {
        EntryIsFrom(us, d, lines, k);
        var i: nat :| i < |us| && us[i].0 == k && !Deletes(us[i]) && us[i].1.value == d[k];
        AcceptedEach(us, i);
        AcceptedIsEntry(us[i]);
      } else {
        EntryKeyParses(k, d[k]);
      }
    }
  }

  ghost predicate AllTidy(us: Updates) {
    forall i :: 0 <= i < |us| ==> Tidy(us[i])
  }

  lemma EntryIsRead(us: Updates, d: Dict, lines: seq<string>, k: string)
    requires Sheet(us, d, lines) && FirstError(us).None? && AllTidy(us) && k in d
    ensures Filter(IsOther, Pieces(Entry(k, d[k]))) == []
  {
    SheetPrintsEntries(us, d, lines);
    assert Sourced(us, d, k);
    if Named(us, k) {
      EntryIsFrom(us, d, lines, k);
      var i: nat :| i < |us| && us[i].0 == k && !Deletes(us[i]) && us[i].1.value == d[k];
      AcceptedEach(us, i);
      TidyIffNoOther(us[i]);
    } else {
      EntryHasNoBreaks(k, d[k]);
      PlainPieces(Entry(k, d[k]));
      NoOtherIff([Entry(k, d[k])]);
    }
  }

  lemma UnitIsRead(us: Updates, d: Dict, lines: seq<string>, l: string)
    requires Sheet(us, d, lines) && FirstError(us).None? && l in lines
    ensures |Filter(IsOther, [l])| <= |Filter(IsOther, Pieces(l))|
    ensures AllTidy(us) ==> Filter(IsOther, Pieces(l)) == Filter(IsOther, [l])
  {
    if IsOther(l) && NoBreaks(l) {
      PlainPieces(l);
    } else {
      var k :| k in d && l == Entry(k, d[k]);
      SheetPrintsEntries(us, d, lines);
      NoOtherIff([l]);
      if AllTidy(us) {
        EntryIsRead(us, d, lines, k);
      }
    }
  }

  /** An untidy update adds a line that is no entry. */
  lemma UntidyAdds(us: Updates, d: Dict, lines: seq<string>, i: nat)
    requires Sheet(us, d, lines) && FirstError(us).None? && i < |us| && !Tidy(us[i])
    ensures |Filter(IsOther, lines)| < |Filter(IsOther, ReadBack(lines))|
  {
    var l := Entry(us[i].0, us[i].1.value);
    AcceptedEach(us, i);
    AcceptedIsEntry(us[i]);
    TidyIffNoOther(us[i]);
    NoOtherIff([l]);
    assert Obeys(d, us[i]);
    assert l in lines && |Filter(IsOther, [l])| < |Filter(IsOther, Pieces(l))|;
    forall x | x in lines ensures |Filter(IsOther, [x])| <= |Filter(IsOther, Pieces(x))| {
      UnitIsRead(us, d, lines, x);
    }
    FlatMapAddsCount(IsOther, Pieces, lines);
  }

  lemma OthersAreReadIff(us: Updates, d: Dict, lines: seq<string>)
    requires Sheet(us, d, lines) && FirstError(us).None?
    ensures Filter(IsOther, ReadBack(lines)) == Filter(IsOther, lines) <==> AllTidy(us)
  {
    if AllTidy(us) {
      forall l | l in lines ensures Filter(IsOther, Pieces(l)) == Filter(IsOther, [l]) {
        UnitIsRead(us, d, lines, l);
      }
      FlatMapKeeps(IsOther, Pieces, lines);
    } else {
      var i: nat :| i < |us| && !Tidy(us[i]);
      UntidyAdds(us, d, lines, i);
    }
  }

  /** The comments and unrecognised lines of the new file are those of the old one, in order. A file of which
      nothing is left still holds one blank line. */
  ghost predicate KeepsComments(raw: string, d: Dict, text: string) {
    Filter(IsOther, SplitLines(text)) == Filter(IsOther, OldLines(raw)) || (d == map[] && text == "\n")
  }

  /** An accepted put keeps the comments exactly when all its updates are tidy. */
  lemma CommentsSurviveIff(raw: string, us: Updates, text: string)
    requires DistinctKeys(us) && FirstError(us).None?
    requires NewText(raw, Updated(ParseLines(SplitLines(raw)), us), text)
    ensures KeepsComments(raw, Updated(ParseLines(SplitLines(raw)), us), text) <==> AllTidy(us)
  {
    var d := Updated(ParseLines(SplitLines(raw)), us);
    var order := NewOrder(raw, d, text);
    var lines := Reemit(OldLines(raw), d) + Fresh(order, d);
    PutIsSheet(raw, us, d, order);
    SheetReadsBack(us, d, lines);
    SheetPrintsEntries(us, d, lines);
    OthersSurvive(OldLines(raw), d, order);
    OthersAreReadIff(us, d, lines);
    if d == map[] {
      NothingIsSet(us, d, lines);
    } else {
      SomethingIsPrinted(OldLines(raw), d, order);
    }
  }

  lemma NothingIsSet(us: Updates, d: Dict, lines: seq<string>)
    requires Sheet(us, d, lines) && d == map[]
    ensures AllTidy(us)
  {
    forall i | 0 <= i < |us| ensures Tidy(us[i]) {
      assert Obeys(d, us[i]);
    }
  }

  /** In particular: proper keys and values without breaks, trailing blanks included. */
  lemma BreakFreeIsTidy(us: Updates)
    requires forall i :: 0 <= i < |us| && !Deletes(us[i]) ==> IsKey(us[i].0) && NoBreaks(us[i].1.value)
    ensures AllTidy(us)
  {
    forall i | 0 <= i < |us| && !Deletes(us[i]) ensures Tidy(us[i]) {
      EntryHasNoBreaks(us[i].0, us[i].1.value);
      PlainPieces(Entry(us[i].0, us[i].1.value));
    }
  }

  /** A break that opens a line of another kind is untidy. */
  lemma OtherAfterBreak(k: string, v: string, line: string)
    requires IsKey(k) && NoBreaks(v) && NoBreaks(line) && IsOther(line)
    ensures !Tidy((k, Some(v + ['\U{0B}'] + line)))
  {
    EntryHasNoBreaks(k, v);
    BrokenInTwo(Entry(k, v), '\U{0B}', line);
    Associate(k + "=", v, ['\U{0B}'] + line);
    Associate(v, ['\U{0B}'], line);
    var pieces := Pieces(Entry(k, v + ['\U{0B}'] + line));
    assert pieces == [Entry(k, v), line] && IsOther(pieces[1]);
  }

  /** An accepted update that adds an unrecognised line: a vertical tab splits its value. */
  lemma AcceptedButUntidy()
    ensures FirstError([("KEY", Some("a" + ['\U{0B}'] + "b"))]).None? && !Tidy(("KEY", Some("a" + ['\U{0B}'] + "b")))
  {
    AcceptedButImproper();
    assert "a" + ['\U{0B}'] + "b" == "a\U{0B}b";
    StripIsIdentity("b");
    OtherAfterBreak("KEY", "a", "b");
  }
}
