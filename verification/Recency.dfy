/** Most-recently-used lists: workspaces (`cockpit/backend/app/workspace.py`) and chat sessions
    (`cockpit/backend/app/sessions.py`). Times are whole seconds, as the clock string has them. */
module Recency {
  import opened Lists
  import opened Sorting

  const MAX_WORKSPACES := 12
  const MAX_SESSIONS := 80

  datatype Entry = Entry(id: string, used: int)

  function Used(e: Entry): int {
    e.used
  }

  function Without(s: seq<Entry>, id: string): seq<Entry> {
    Filter((e: Entry) => e.id != id, s)
  }

  /** Moves or inserts an entry at the front. */
  function Front(s: seq<Entry>, e: Entry): seq<Entry> {
    [e] + Without(s, e.id)
  }

  /** One open of a workspace: front, then cut. */
  function Opened(s: seq<Entry>, e: Entry): seq<Entry> {
    Take(Front(s, e), MAX_WORKSPACES)
  }

  /** One create or save of a session: the index is re-sorted by `used` before the entry goes to the front. */
  function Touched(s: seq<Entry>, e: Entry): seq<Entry> {
    Take(Front(SortDesc(Used, s), e), MAX_SESSIONS)
  }

  class Workspaces {
    var current: string
    var recents: seq<Entry>

    method Open(path: string, now: int)
      modifies this
      ensures current == path && recents == Opened(old(recents), Entry(path, now))
    {
      var others := Filter((e: Entry) => e.id != path, recents);
      current := path;
      recents := Take([Entry(path, now)] + others, MAX_WORKSPACES);
    }
  }

  class Sessions {
    var index: seq<Entry>

    /** Newest first; sessions with one time keep their order. */
    method List() returns (rows: seq<Entry>)
      ensures rows == SortDesc(Used, index)
      ensures Descending(Used, rows) && multiset(rows) == multiset(index)
      ensures forall time :: WithKey(Used, rows, time) == WithKey(Used, index, time)
    {
      rows := SortDesc(Used, index);
      SortDescSorts(Used, index);
      forall time ensures WithKey(Used, rows, time) == WithKey(Used, index, time) {
        SortDescIsStable(Used, index, time);
      }
    }

    method Touch(id: string, now: int)
      modifies this
      ensures index == Touched(old(index), Entry(id, now))
    {
      var rows := List();
      var others := Filter((e: Entry) => e.id != id, rows);
      index := Take([Entry(id, now)] + others, MAX_SESSIONS);
    }
  }

  // ----- The full history

  function Reverse(s: seq<Entry>): seq<Entry> {
    if s == [] then [] else [s[|s| - 1]] + Reverse(s[..|s| - 1])
  }

  function IdOf(e: Entry): string {
    e.id
  }

  predicate HasId(s: seq<Entry>, id: string) {
    exists e :: e in s && e.id == id
  }

  /** The first entry of every id. */
  function FirstOfEachId(s: seq<Entry>): seq<Entry> {
    FirstOfEach(IdOf, s)
  }

  lemma FirstOfEachIdSnoc(s: seq<Entry>, e: Entry)
    ensures FirstOfEachId(s + [e]) == var d := FirstOfEachId(s); if HasId(d, e.id) then d else d + [e]
  {
    var d := FirstOfEachId(s);
    FirstOfEachSnoc(IdOf, s, e);
    if x :| x in d && x.id == e.id {
      var k :| 0 <= k < |d| && d[k] == x;
      assert Map(IdOf, d)[k] == IdOf(d[k]) == e.id;
    }
    if e.id in Map(IdOf, d) {
      var k :| 0 <= k < |d| && Map(IdOf, d)[k] == e.id;
      assert Map(IdOf, d)[k] == IdOf(d[k]) && d[k] in d;
    }
  }

  /** The whole history, newest first, one entry per id. */
  function Recent(history: seq<Entry>): seq<Entry> {
    FirstOfEachId(Reverse(history))
  }

  function RunOpens(history: seq<Entry>): seq<Entry> {
    if history == [] then [] else Opened(RunOpens(history[..|history| - 1]), history[|history| - 1])
  }

  function RunTouches(history: seq<Entry>): seq<Entry> {
    if history == [] then [] else Touched(RunTouches(history[..|history| - 1]), history[|history| - 1])
  }

  // ----- Cutting at every step loses nothing

  ghost predicate UniqueIds(s: seq<Entry>) {
    forall i, j :: 0 <= i < j < |s| ==> s[i].id != s[j].id
  }

  lemma WithoutConcat(a: seq<Entry>, b: seq<Entry>, id: string)
    ensures Without(a + b, id) == Without(a, id) + Without(b, id)
  {
    FilterConcat((x: Entry) => x.id != id, a, b);
  }

  lemma {:induction false} WithoutDropsAtMostOne(s: seq<Entry>, id: string)
    requires UniqueIds(s)
    ensures |s| - 1 <= |Without(s, id)| <= |s|
    ensures (forall e :: e in s ==> e.id != id) ==> Without(s, id) == s
  {
    if s != [] {
      var init, last := s[..|s| - 1], s[|s| - 1];
      WithoutDropsAtMostOne(init, id);
      if last.id == id {
        forall e | e in init ensures e.id != id {
          var i :| 0 <= i < |init| && init[i] == e;
        }
      }
      assert s == init + [last];
    }
  }

  /** Cutting before a step and after it is the same as cutting after it. */
  lemma CutCommutes(s: seq<Entry>, e: Entry, n: nat)
    requires UniqueIds(s) && n > 0
    ensures Take(Front(Take(s, n), e), n) == Take(Front(s, e), n)
  {
    if |s| > n {
      var head, tail := s[..n], s[n..];
      assert s == head + tail;
      WithoutConcat(head, tail, e.id);
      WithoutDropsAtMostOne(head, e.id);
      var a, b := Without(head, e.id), Without(tail, e.id);
      assert [e] + (a + b) == ([e] + a) + b;
      assert (([e] + a) + b)[..n] == ([e] + a)[..n];
      assert ([e] + a)[..n] == Take([e] + a, n);
    }
  }

  lemma {:induction false} FirstOfEachIdAre(s: seq<Entry>)
    ensures UniqueIds(FirstOfEachId(s))
    ensures forall e :: e in FirstOfEachId(s) ==> e in s
    ensures forall id :: HasId(s, id) ==> HasId(FirstOfEachId(s), id)
  {
    if s != [] {
      var init, last := s[..|s| - 1], s[|s| - 1];
      FirstOfEachIdAre(init);
      var d := FirstOfEachId(init);
      assert s == init + [last];
      FirstOfEachIdSnoc(init, last);
      forall id | HasId(s, id) ensures HasId(FirstOfEachId(s), id) {
        var e :| e in s && e.id == id;
        if e in init {
          assert HasId(init, id);
          var x :| x in d && x.id == id;
          assert x in FirstOfEachId(s);
        } else if !HasId(d, id) {
          assert last in FirstOfEachId(s);
        }
      }
    }
  }

  lemma FrontHasId(d: seq<Entry>, e: Entry, id: string)
    ensures HasId(Front(d, e), id) <==> id == e.id || HasId(d, id)
  {
    var front := Front(d, e);
    FilterIn((x: Entry) => x.id != e.id, d);
    if x :| x in front && x.id == id {
      assert x == e || x in d;
    }
    if x :| x in d && x.id == id {
      assert x.id == e.id || x in front;
    }
    assert front[0] == e && e in front;
  }

  lemma FrontSnoc(d: seq<Entry>, e: Entry, last: Entry)
    ensures Front(d + [last], e) == if last.id == e.id then Front(d, e) else Front(d, e) + [last]
  {
    FilterSnoc((x: Entry) => x.id != e.id, d, last);
    assert Without(d, e.id) + [] == Without(d, e.id);
    assert [e] + (Without(d, e.id) + [last]) == Front(d, e) + [last];
  }

  lemma ConsStep(e: Entry, init: seq<Entry>, last: Entry)
    requires FirstOfEachId([e] + init) == Front(FirstOfEachId(init), e)
    ensures FirstOfEachId([e] + init + [last]) == Front(FirstOfEachId(init + [last]), e)
  {
    var d := FirstOfEachId(init);
    FirstOfEachIdSnoc(init, last);
    FirstOfEachIdSnoc([e] + init, last);
    FrontHasId(d, e, last.id);
    FrontSnoc(d, e, last);
  }

  /** Putting an entry first in the history moves it to the front of the deduplicated list. */
  lemma {:induction false} FirstOfEachIdCons(e: Entry, s: seq<Entry>)
    ensures FirstOfEachId([e] + s) == Front(FirstOfEachId(s), e)
  {
    if s == [] {
      FirstOfEachIdSnoc([], e);
      assert [] + [e] == [e] + s;
      assert Without([], e.id) == [];
    } else {
      var init, last := s[..|s| - 1], s[|s| - 1];
      FirstOfEachIdCons(e, init);
      ConsStep(e, init, last);
      assert s == init + [last];
      Associate([e], init, [last]);
    }
  }

  lemma RecentSnoc(history: seq<Entry>, e: Entry)
    ensures Recent(history + [e]) == Front(Recent(history), e)
  {
    assert (history + [e])[..|history + [e]| - 1] == history;
    FirstOfEachIdCons(e, Reverse(history));
  }

  /** After any run of opens the list is the first 12 of the reversed, deduplicated history. */
  lemma {:induction false} OpensKeepTheNewest(history: seq<Entry>)
    ensures RunOpens(history) == Take(Recent(history), 12)
  {
    if history != [] {
      var init, e := history[..|history| - 1], history[|history| - 1];
      assert history == init + [e];
      OpensKeepTheNewest(init);
      RecentSnoc(init, e);
      FirstOfEachIdAre(Reverse(init));
      CutCommutes(Recent(init), e, MAX_WORKSPACES);
    }
  }

  // ----- The re-sort

  ghost predicate ClockNeverGoesBack(history: seq<Entry>) {
    forall i, j :: 0 <= i < j < |history| ==> history[i].used <= history[j].used
  }

  lemma {:induction false} ReverseHas(s: seq<Entry>)
    ensures |Reverse(s)| == |s| && forall i :: 0 <= i < |s| ==> Reverse(s)[i] == s[|s| - 1 - i]
  {
    if s != [] {
      ReverseHas(s[..|s| - 1]);
    }
  }

  lemma LastIsLeast(init: seq<Entry>, last: Entry, e: Entry)
    requires Descending(Used, init + [last]) && e in init
    ensures e.used >= last.used
  {
    var k :| 0 <= k < |init| && init[k] == e;
    assert Used((init + [last])[k]) >= Used((init + [last])[|init|]);
  }

  lemma AppendLeast(d: seq<Entry>, last: Entry)
    requires Descending(Used, d) && forall e :: e in d ==> e.used >= last.used
    ensures Descending(Used, d + [last])
  {
  }

  lemma {:induction false} FirstOfEachIdIsDescending(s: seq<Entry>)
    requires Descending(Used, s)
    ensures Descending(Used, FirstOfEachId(s))
  {
    if s != [] {
      var init, last := s[..|s| - 1], s[|s| - 1];
      assert s == init + [last];
      FirstOfEachIdIsDescending(init);
      FirstOfEachIdAre(init);
      FirstOfEachIdSnoc(init, last);
      forall e | e in FirstOfEachId(init) ensures e.used >= last.used {
        LastIsLeast(init, last, e);
      }
      AppendLeast(FirstOfEachId(init), last);
    }
  }

  lemma RecentIsDescending(history: seq<Entry>)
    requires ClockNeverGoesBack(history)
    ensures Descending(Used, Recent(history))
  {
    ReverseHas(history);
    FirstOfEachIdIsDescending(Reverse(history));
  }

  /** With a clock that never goes back, the session index is the first 80 of the reversed, deduplicated
      history, and listing it in order of use changes nothing. */
  lemma {:induction false} TouchesKeepTheNewest(history: seq<Entry>)
    requires ClockNeverGoesBack(history)
    ensures RunTouches(history) == Take(Recent(history), 80)
    ensures SortDesc(Used, RunTouches(history)) == RunTouches(history)
  {
    if history != [] {
      var init, e := history[..|history| - 1], history[|history| - 1];
      assert history == init + [e];
      TouchesKeepTheNewest(init);
      RecentSnoc(init, e);
      FirstOfEachIdAre(Reverse(init));
      CutCommutes(Recent(init), e, MAX_SESSIONS);
    }
    RecentIsDescending(history);
    SortDescIsIdentity(Used, RunTouches(history));
  }

  /** The exact condition at one step: the next listing keeps the order exactly when the touch is not
      older than the entry that follows it. */
  lemma NextListingKeepsOrderIff(index: seq<Entry>, e: Entry)
    requires Descending(Used, index)
    ensures var next := Touched(index, e);
      SortDesc(Used, next) == next <==> |next| == 1 || next[1].used <= e.used
  {
    var next := Touched(index, e);
    SortDescIsIdentity(Used, index);
    SortDescIsIdentity(Used, next);
    WithoutIsDescending(index, e.id);
    var tail := Take(Without(index, e.id), MAX_SESSIONS - 1);
    assert next == [e] + tail;
    ConsDescending(e, tail);
  }

  lemma ConsDescending(e: Entry, tail: seq<Entry>)
    requires Descending(Used, tail)
    ensures Descending(Used, [e] + tail) <==> tail == [] || tail[0].used <= e.used
  {
    var all := [e] + tail;
    if tail != [] && Descending(Used, all) {
      assert Used(all[0]) >= Used(all[1]);
    }
    if tail != [] && tail[0].used <= e.used {
      forall i, j | 0 <= i < j < |all| ensures Used(all[i]) >= Used(all[j]) {
        assert Used(tail[0]) >= Used(tail[j - 1]) || j == 1;
        assert i > 0 ==> Used(tail[i - 1]) >= Used(tail[j - 1]);
      }
    }
  }

  lemma {:induction false} WithoutIsDescending(s: seq<Entry>, id: string)
    requires Descending(Used, s)
    ensures Descending(Used, Without(s, id))
  {
    if s != [] {
      var init := s[..|s| - 1];
      WithoutIsDescending(init, id);
      FilterIn((e: Entry) => e.id != id, init);
      var w := Without(init, id);
      forall i | 0 <= i < |w| ensures Used(w[i]) >= Used(s[|s| - 1]) {
        assert w[i] in init;
        var k :| 0 <= k < |init| && init[k] == w[i];
        assert s[k] == w[i];
      }
    }
  }
}
