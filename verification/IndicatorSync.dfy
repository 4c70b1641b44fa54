/** Indicators: a flat list of entries that snapshots are synchronised into, and for the application
    menu indicator an index of the same entries by parent window
    (UnityCore/Indicator.cpp, UnityCore/AppmenuIndicator.cpp). */
module IndicatorSync {
  import opened Flood
  import opened IndicatorEntry

  type Window = nat

  datatype Event =
    | EntryAdded(entry: Entry)
    | EntryRemoved(entry: Entry)
    | ListUpdated
    | WindowUpdated(window: Window)

  // ---------------------------------------------------------------------------------
  // What a synchronisation computes

  ghost predicate HasId(es: seq<Entry>, id: string) {
    exists e | e in es :: e.id == id
  }

  ghost predicate DistinctIds(es: seq<Entry>) {
    forall i, j | 0 <= i < j < |es| :: es[i].id != es[j].id
  }

  /** The members of es that are also, as objects, in wanted; in the order of es. */
  ghost function Kept(es: seq<Entry>, wanted: seq<Entry>): seq<Entry> {
    if es == [] then [] else
      var e := es[|es| - 1];
      Kept(es[..|es| - 1], wanted) + if e in wanted then [e] else []
  }

  ghost function Dropped(es: seq<Entry>, wanted: seq<Entry>): seq<Entry> {
    if es == [] then [] else
      var e := es[|es| - 1];
      Dropped(es[..|es| - 1], wanted) + if e in wanted then [] else [e]
  }

  /** The members of wanted to append to es: the first with each id that is not in es. */
  ghost function Joining(es: seq<Entry>, wanted: seq<Entry>): seq<Entry> {
    if wanted == [] then [] else
      var e, before := wanted[|wanted| - 1], Joining(es, wanted[..|wanted| - 1]);
      before + if HasId(es + before, e.id) then [] else [e]
  }

  ghost function Synced(es: seq<Entry>, wanted: seq<Entry>): seq<Entry> {
    Kept(es, wanted) + Joining(Kept(es, wanted), wanted)
  }

  ghost function OfWindow(es: seq<Entry>, w: Window): seq<Entry> {
    if es == [] then [] else
      var e := es[|es| - 1];
      OfWindow(es[..|es| - 1], w) + if e.parentWindow == w then [e] else []
  }

  ghost function Without(es: seq<Entry>, x: Entry): seq<Entry> {
    if es == [] then [] else
      var e := es[|es| - 1];
      Without(es[..|es| - 1], x) + if e == x then [] else [e]
  }

  ghost function Removals(es: seq<Entry>): seq<Event> {
    seq(|es|, i requires 0 <= i < |es| => EntryRemoved(es[i]))
  }

  ghost function Additions(es: seq<Entry>): seq<Event> {
    seq(|es|, i requires 0 <= i < |es| => EntryAdded(es[i]))
  }

  ghost function WindowEvents(ws: seq<Window>): seq<Event> {
    seq(|ws|, i requires 0 <= i < |ws| => WindowUpdated(ws[i]))
  }

  lemma KeptOrDropped(es: seq<Entry>, wanted: seq<Entry>)
    ensures forall e :: e in Kept(es, wanted) ==> e in es && e in wanted
    ensures forall e :: e in Dropped(es, wanted) ==> e in es && e !in wanted
    ensures forall e :: e in es ==> if e in wanted then e in Kept(es, wanted) else e in Dropped(es, wanted)
  {
    if es != [] {
      KeptOrDropped(es[..|es| - 1], wanted);
      assert es == es[..|es| - 1] + [es[|es| - 1]];
    }
  }

  lemma DistinctAppend(es: seq<Entry>, e: Entry)
    ensures DistinctIds(es + [e]) <==> DistinctIds(es) && !HasId(es, e.id)
  {
    var all := es + [e];
    if DistinctIds(all) {
      forall x | x in es ensures x.id != e.id {
        var i :| 0 <= i < |es| && es[i] == x;
        assert all[i] == x && all[|es|] == e;
      }
      forall i, j | 0 <= i < j < |es| ensures es[i].id != es[j].id {
        assert all[i] == es[i] && all[j] == es[j];
      }
    }
  }

  lemma {:induction false} KeptDistinct(es: seq<Entry>, wanted: seq<Entry>)
    requires DistinctIds(es)
    ensures DistinctIds(Kept(es, wanted))
  {
    if es != [] {
      var rest, last := es[..|es| - 1], es[|es| - 1];
      assert es == rest + [last];
      DistinctAppend(rest, last);
      KeptDistinct(rest, wanted);
      KeptOrDropped(rest, wanted);
      assert !HasId(Kept(rest, wanted), last.id);
      DistinctAppend(Kept(rest, wanted), last);
      assert Kept(es, wanted) == if last in wanted then Kept(rest, wanted) + [last] else Kept(rest, wanted);
    }
  }

  /** A synchronised list never repeats an id, whatever the argument repeats. */
  lemma {:induction false} JoiningDistinct(es: seq<Entry>, wanted: seq<Entry>)
    requires DistinctIds(es)
    ensures DistinctIds(es + Joining(es, wanted))
  {
    if wanted == [] {
      assert es + Joining(es, wanted) == es;
    } else {
      var before, e := Joining(es, wanted[..|wanted| - 1]), wanted[|wanted| - 1];
      JoiningDistinct(es, wanted[..|wanted| - 1]);
      DistinctAppend(es + before, e);
      assert es + (before + [e]) == (es + before) + [e];
      assert es + (before + []) == es + before;
    }
  }

  lemma {:induction false} JoiningMembers(es: seq<Entry>, wanted: seq<Entry>)
    ensures forall e | e in Joining(es, wanted) :: e in wanted && e !in es && !HasId(es, e.id)
    ensures forall e | e in wanted :: HasId(es + Joining(es, wanted), e.id)
  {
    if wanted != [] {
      var rest, last := wanted[..|wanted| - 1], wanted[|wanted| - 1];
      var before := Joining(es, rest);
      JoiningMembers(es, rest);
      assert wanted == rest + [last];
      forall e | e in wanted ensures HasId(es + Joining(es, wanted), e.id) {
        if HasId(es + before, e.id) {
          var x :| x in es + before && x.id == e.id;
          assert x in es + Joining(es, wanted);
        } else {
          assert last in es + Joining(es, wanted);
        }
      }
    }
  }

  /** After any synchronisation: distinct ids, exactly the ids of the argument, and of the old
      objects exactly those that the argument holds. */
  lemma SyncedOutcome(es: seq<Entry>, wanted: seq<Entry>)
    requires DistinctIds(es)
    ensures DistinctIds(Synced(es, wanted))
    ensures forall id :: HasId(Synced(es, wanted), id) <==> HasId(wanted, id)
    ensures forall e | e in es :: e in Synced(es, wanted) <==> e in wanted
    ensures forall e | e in Synced(es, wanted) :: e in wanted
  {
    var kept := Kept(es, wanted);
    KeptOrDropped(es, wanted);
    KeptDistinct(es, wanted);
    JoiningDistinct(kept, wanted);
    JoiningMembers(kept, wanted);
    forall e | e in Synced(es, wanted) ensures e in wanted {
      assert e in kept || e in Joining(kept, wanted);
    }
    forall id | HasId(wanted, id) ensures HasId(Synced(es, wanted), id) {
      var e :| e in wanted && e.id == id;
    }
    forall id | HasId(Synced(es, wanted), id) ensures HasId(wanted, id) {
      var e :| e in Synced(es, wanted) && e.id == id;
    }
  }

  /** When the argument itself repeats no id, every one of its objects that replaces or joins the old
      ones is taken over as it is. */
  lemma SyncedIsExactlyWanted(es: seq<Entry>, wanted: seq<Entry>)
    requires DistinctIds(es) && DistinctIds(wanted)
    ensures forall e :: e in Synced(es, wanted) <==> e in wanted
  {
    SyncedOutcome(es, wanted);
    forall e | e in wanted ensures e in Synced(es, wanted) {
      assert HasId(wanted, e.id);
      var x :| x in Synced(es, wanted) && x.id == e.id;
      var i, j :| 0 <= i < |wanted| && 0 <= j < |wanted| && wanted[i] == e && wanted[j] == x;
    }
  }

  // ---------------------------------------------------------------------------------
  // The order of the entries

  /** x stands in es before y. */
  ghost predicate Precedes(es: seq<Entry>, x: Entry, y: Entry) {
    exists i, j | 0 <= i < j < |es| :: es[i] == x && es[j] == y
  }

  /** The members of sub follow one another as they do in es. */
  ghost predicate KeepsOrder(sub: seq<Entry>, es: seq<Entry>) {
    forall p, q | 0 <= p < q < |sub| :: Precedes(es, sub[p], sub[q])
  }

  lemma PrecedesStep(es: seq<Entry>, e: Entry, x: Entry, y: Entry)
    ensures Precedes(es, x, y) ==> Precedes(es + [e], x, y)
    ensures x in es ==> Precedes(es + [e], x, e)
  {
    var all := es + [e];
    if Precedes(es, x, y) {
      var i, j :| 0 <= i < j < |es| && es[i] == x && es[j] == y;
      assert all[i] == x && all[j] == y;
    }
    if x in es {
      var i :| 0 <= i < |es| && es[i] == x;
      assert all[i] == x && all[|es|] == e;
    }
  }

  lemma KeepsOrderStep(sub: seq<Entry>, es: seq<Entry>, e: Entry)
    requires KeepsOrder(sub, es) && forall x | x in sub :: x in es
    ensures KeepsOrder(sub, es + [e]) && KeepsOrder(sub + [e], es + [e])
  {
    hide Precedes;
    forall x, y ensures (Precedes(es, x, y) ==> Precedes(es + [e], x, y)) && (x in es ==> Precedes(es + [e], x, e)) {
      PrecedesStep(es, e, x, y);
    }
  }

  lemma {:induction false} KeptInOrder(es: seq<Entry>, wanted: seq<Entry>)
    ensures KeepsOrder(Kept(es, wanted), es)
  {
    if es != [] {
      var rest, last := es[..|es| - 1], es[|es| - 1];
      assert es == rest + [last] && Kept(rest, wanted) + [] == Kept(rest, wanted);
      KeptInOrder(rest, wanted);
      KeptOrDropped(rest, wanted);
      hide KeepsOrder;
      KeepsOrderStep(Kept(rest, wanted), rest, last);
    }
  }

  lemma {:induction false} JoiningInOrder(es: seq<Entry>, wanted: seq<Entry>)
    ensures KeepsOrder(Joining(es, wanted), wanted)
  {
    if wanted != [] {
      var rest, last := wanted[..|wanted| - 1], wanted[|wanted| - 1];
      assert wanted == rest + [last] && Joining(es, rest) + [] == Joining(es, rest);
      JoiningInOrder(es, rest);
      JoiningMembers(es, rest);
      hide KeepsOrder;
      KeepsOrderStep(Joining(es, rest), rest, last);
    }
  }

  lemma {:induction false} OfWindowInOrder(es: seq<Entry>, w: Window)
    ensures KeepsOrder(OfWindow(es, w), es)
  {
    if es != [] {
      var rest, last := es[..|es| - 1], es[|es| - 1];
      assert es == rest + [last] && OfWindow(rest, w) + [] == OfWindow(rest, w);
      OfWindowInOrder(rest, w);
      OfWindowMembers(rest, w);
      hide KeepsOrder;
      KeepsOrderStep(OfWindow(rest, w), rest, last);
    }
  }

  /** Of several objects of the argument with the same new id, the first one joins. */
  lemma {:induction false} JoiningIsFirst(es: seq<Entry>, wanted: seq<Entry>, e: Entry)
    requires e in Joining(es, wanted)
    ensures exists k | 0 <= k < |wanted| :: wanted[k] == e && forall m | 0 <= m < k :: wanted[m].id != e.id
  {
    var n := |wanted| - 1;
    var rest := wanted[..n];
    if e in Joining(es, rest) {
      JoiningIsFirst(es, rest, e);
      var k :| 0 <= k < n && rest[k] == e && forall m | 0 <= m < k :: rest[m].id != e.id;
      assert wanted[k] == e && forall m | 0 <= m < k :: wanted[m] == rest[m];
    } else {
      JoiningMembers(es, rest);
      assert wanted[n] == e;
      forall m | 0 <= m < n ensures wanted[m].id != e.id {
        assert rest[m] in rest && HasId(es + Joining(es, rest), rest[m].id);
      }
    }
  }

  /** The old objects come first, in their old order; behind them the new ones follow in the order of the
      argument. */
  lemma SyncedInOrder(es: seq<Entry>, wanted: seq<Entry>, p: nat, q: nat)
    requires DistinctIds(es) && p < q < |Synced(es, wanted)|
    ensures var x, y := Synced(es, wanted)[p], Synced(es, wanted)[q];
            && (y in es ==> x in es && Precedes(es, x, y))
            && (x !in es ==> y !in es && Precedes(wanted, x, y))
  {
    hide Kept, Joining, DistinctIds, HasId, Precedes;
    var kept, joining := Kept(es, wanted), Joining(Kept(es, wanted), wanted);
    KeptInOrder(es, wanted);
    JoiningInOrder(kept, wanted);
    assert forall k | 0 <= k < |kept| :: kept[k] in kept;
    assert forall k | 0 <= k < |joining| :: joining[k] in joining;
    OldOrNew(es, wanted);
    if q < |kept| {
      assert kept[p] == Synced(es, wanted)[p] && kept[q] == Synced(es, wanted)[q];
    } else if p >= |kept| {
      assert joining[p - |kept|] == Synced(es, wanted)[p] && joining[q - |kept|] == Synced(es, wanted)[q];
    }
  }

  lemma OldOrNew(es: seq<Entry>, wanted: seq<Entry>)
    ensures forall e | e in Kept(es, wanted) :: e in es
    ensures forall e | e in Joining(Kept(es, wanted), wanted) :: e !in es
  {
    KeptOrDropped(es, wanted);
    JoiningMembers(Kept(es, wanted), wanted);
  }

  // ---------------------------------------------------------------------------------
  // The index by window

  lemma {:induction false} OfWindowConcat(a: seq<Entry>, b: seq<Entry>, w: Window)
    ensures OfWindow(a + b, w) == OfWindow(a, w) + OfWindow(b, w)
  {
    if b == [] {
      assert a + b == a;
    } else {
      assert (a + b)[..|a + b| - 1] == a + b[..|b| - 1];
      OfWindowConcat(a, b[..|b| - 1], w);
    }
  }

  lemma OfWindowSingle(x: Entry, w: Window)
    ensures OfWindow([x], w) == if x.parentWindow == w then [x] else []
  {
    assert [x][..0] == [];
  }

  lemma OfWindowMembers(es: seq<Entry>, w: Window)
    ensures forall e :: e in OfWindow(es, w) ==> e in es && e.parentWindow == w
    ensures forall e :: e in es && e.parentWindow == w ==> e in OfWindow(es, w)
  {
    if es != [] {
      OfWindowMembers(es[..|es| - 1], w);
      assert es == es[..|es| - 1] + [es[|es| - 1]];
    }
  }

  lemma {:induction false} WithoutConcat(a: seq<Entry>, b: seq<Entry>, x: Entry)
    ensures Without(a + b, x) == Without(a, x) + Without(b, x)
  {
    if b == [] {
      assert a + b == a;
    } else {
      assert (a + b)[..|a + b| - 1] == a + b[..|b| - 1];
      WithoutConcat(a, b[..|b| - 1], x);
    }
  }

  lemma {:induction false} WithoutAbsent(es: seq<Entry>, x: Entry)
    requires x !in es
    ensures Without(es, x) == es
  {
    if es != [] {
      WithoutAbsent(es[..|es| - 1], x);
    }
  }

  /** Erasing one entry from the flat list is erasing it from its window's list. */
  lemma OfWindowErase(es: seq<Entry>, i: nat, w: Window)
    requires i < |es| && DistinctIds(es)
    ensures OfWindow(es[..i] + es[i + 1..], w) == Without(OfWindow(es, w), es[i])
    ensures es[i].parentWindow != w ==> OfWindow(es[..i] + es[i + 1..], w) == OfWindow(es, w)
  {
    var a, x, b := es[..i], es[i], es[i + 1..];
    assert es == (a + [x]) + b;
    forall e | e in a + b ensures e != x {
      var j :| 0 <= j < |a + b| && (a + b)[j] == e;
      assert e == if j < i then es[j] else es[j + 1];
    }
    OfWindowConcat(a + [x], b, w);
    OfWindowConcat(a, [x], w);
    OfWindowConcat(a, b, w);
    OfWindowSingle(x, w);
    OfWindowMembers(a, w);
    OfWindowMembers(b, w);
    WithoutMiddle(OfWindow(a, w), x, OfWindow(b, w), OfWindow([x], w));
    assert OfWindow([x], w) == [] ==> OfWindow(a, w) + OfWindow([x], w) == OfWindow(a, w);
  }

  lemma WithoutMiddle(a: seq<Entry>, x: Entry, b: seq<Entry>, middle: seq<Entry>)
    requires x !in a && x !in b && (middle == [] || middle == [x])
    ensures Without(a + middle + b, x) == a + b
  {
    hide Without;
    WithoutConcat(a + middle, b, x);
    WithoutConcat(a, middle, x);
    WithoutAbsent(a, x);
    WithoutAbsent(b, x);
    assert Without(middle, x) == [] by {
      WithoutAbsent([], x);
      WithoutSelf(x);
    }
  }

  lemma WithoutSelf(x: Entry)
    ensures Without([x], x) == []
  {
    assert [x][..0] == [];
  }

  ghost predicate Indexes(index: map<Window, seq<Entry>>, es: seq<Entry>) {
    forall w: Window :: (w in index <==> OfWindow(es, w) != []) && (w in index ==> index[w] == OfWindow(es, w))
  }

  /** What the handlers of on_entry_added and on_entry_removed make of the index. */
  ghost function IndexWith(index: map<Window, seq<Entry>>, x: Entry): map<Window, seq<Entry>> {
    index[x.parentWindow := (if x.parentWindow in index then index[x.parentWindow] else []) + [x]]
  }

  ghost function IndexWithout(index: map<Window, seq<Entry>>, x: Entry): map<Window, seq<Entry>> {
    if x.parentWindow !in index then index else
      var left := Without(index[x.parentWindow], x);
      if left == [] then index - {x.parentWindow} else index[x.parentWindow := left]
  }

  lemma EraseKeepsIndex(es: seq<Entry>, i: nat, index: map<Window, seq<Entry>>)
    requires i < |es| && DistinctIds(es)
    ensures DistinctIds(es[..i] + es[i + 1..])
    ensures Elements(es[..i] + es[i + 1..]) == Elements(es) - {es[i]}
    ensures Indexes(index, es) ==> Indexes(IndexWithout(index, es[i]), es[..i] + es[i + 1..])
  {
    hide OfWindow, Without;
    var left := es[..i] + es[i + 1..];
    assert es == es[..i] + [es[i]] + es[i + 1..];
    if Indexes(index, es) {
      forall w: Window ensures
          var index' := IndexWithout(index, es[i]);
          (w in index' <==> OfWindow(left, w) != []) && (w in index' ==> index'[w] == OfWindow(left, w)) {
        OfWindowErase(es, i, w);
        OfWindowMembers(es, w);
      }
    }
  }

  lemma AppendKeepsIndex(es: seq<Entry>, x: Entry, index: map<Window, seq<Entry>>)
    requires DistinctIds(es) && !HasId(es, x.id)
    ensures DistinctIds(es + [x])
    ensures Elements(es + [x]) == Elements(es) + {x}
    ensures Indexes(index, es) ==> Indexes(IndexWith(index, x), es + [x])
  {
    DistinctAppend(es, x);
    if Indexes(index, es) {
      forall w: Window ensures
          var index' := IndexWith(index, x);
          (w in index' <==> OfWindow(es + [x], w) != []) && (w in index' ==> index'[w] == OfWindow(es + [x], w)) {
        OfWindowConcat(es, [x], w);
        OfWindowSingle(x, w);
      }
    }
  }

  ghost function WindowsOf(es: seq<Entry>): set<Window> {
    set e | e in es :: e.parentWindow
  }

  lemma {:induction false} NothingDroppedHere(es: seq<Entry>, wanted: seq<Entry>, w: Window)
    requires w !in WindowsOf(Dropped(es, wanted))
    ensures OfWindow(Kept(es, wanted), w) == OfWindow(es, w)
  {
    if es != [] {
      var rest, last := es[..|es| - 1], es[|es| - 1];
      KeptOrDropped(es, wanted);
      KeptOrDropped(rest, wanted);
      assert forall e | e in Dropped(rest, wanted) :: e in Dropped(es, wanted);
      NothingDroppedHere(rest, wanted, w);
      OfWindowConcat(Kept(rest, wanted), [last], w);
      assert last !in wanted ==> last in Dropped(es, wanted);
      assert Kept(rest, wanted) + [] == Kept(rest, wanted);
    }
  }

  lemma {:induction false} OfWindowNone(es: seq<Entry>, w: Window)
    requires w !in WindowsOf(es)
    ensures OfWindow(es, w) == []
  {
    if es != [] {
      assert es == es[..|es| - 1] + [es[|es| - 1]];
      WindowsOfAppend(es[..|es| - 1], es[|es| - 1]);
      OfWindowNone(es[..|es| - 1], w);
    }
  }

  lemma WindowLosesOrGains(es: seq<Entry>, wanted: seq<Entry>, w: Window, e: Entry)
    requires DistinctIds(es) && e.parentWindow == w
    requires e in Dropped(es, wanted) || e in Joining(Kept(es, wanted), wanted)
    ensures OfWindow(Synced(es, wanted), w) != OfWindow(es, w)
  {
    KeptOrDropped(es, wanted);
    JoiningMembers(Kept(es, wanted), wanted);
    OfWindowMembers(Synced(es, wanted), w);
    OfWindowMembers(es, w);
    if e in Dropped(es, wanted) {
      SyncedOutcome(es, wanted);
      assert e in OfWindow(es, w) && e !in Synced(es, wanted);
    } else {
      assert e in Synced(es, wanted) && e in OfWindow(Synced(es, wanted), w) && e !in es;
    }
  }

  /** The entries of a window change exactly when one of them is dropped or a new one joins. */
  lemma WindowChangesIff(es: seq<Entry>, wanted: seq<Entry>, w: Window)
    requires DistinctIds(es)
    ensures OfWindow(Synced(es, wanted), w) != OfWindow(es, w)
       <==> w in WindowsOf(Dropped(es, wanted)) + WindowsOf(Joining(Kept(es, wanted), wanted))
  {
    hide OfWindow, Kept, Dropped, Joining;
    var dropped, joining := Dropped(es, wanted), Joining(Kept(es, wanted), wanted);
    if w in WindowsOf(dropped) + WindowsOf(joining) {
      var e :| (e in dropped || e in joining) && e.parentWindow == w;
      WindowLosesOrGains(es, wanted, w, e);
    } else {
      NothingDroppedHere(es, wanted, w);
      OfWindowConcat(Kept(es, wanted), joining, w);
      OfWindowNone(joining, w);
      assert OfWindow(Kept(es, wanted), w) + [] == OfWindow(Kept(es, wanted), w);
    }
  }

  lemma {:induction false} KeptCount(es: seq<Entry>, wanted: seq<Entry>)
    ensures Dropped(es, wanted) == [] ==> Kept(es, wanted) == es
    ensures |Kept(es, wanted)| + |Dropped(es, wanted)| == |es|
  {
    if es != [] {
      KeptCount(es[..|es| - 1], wanted);
      assert es == es[..|es| - 1] + [es[|es| - 1]];
    }
  }

  /** The guard of the updated signal is exact: something was erased or appended if and only if the
      list is not the same as before. */
  lemma ListChangesIff(es: seq<Entry>, wanted: seq<Entry>)
    requires DistinctIds(es)
    ensures Synced(es, wanted) != es <==> Dropped(es, wanted) != [] || Joining(Kept(es, wanted), wanted) != []
  {
    hide Kept, Dropped, Joining;
    var kept, joining := Kept(es, wanted), Joining(Kept(es, wanted), wanted);
    KeptCount(es, wanted);
    if Dropped(es, wanted) != [] {
      KeptOrDropped(es, wanted);
      SyncedOutcome(es, wanted);
      var e := Dropped(es, wanted)[0];
      assert e in Dropped(es, wanted) && e in es && e !in Synced(es, wanted);
    } else {
      assert Synced(es, wanted) == es + joining;
      assert |es + joining| == |es| + |joining|;
    }
  }

  // What one turn of each loop of a synchronisation does, and how the loops start.
  lemma NothingYet(es: seq<Entry>, wanted: seq<Entry>)
    ensures Kept(wanted[..0], wanted) == [] && Dropped(wanted[..0], wanted) == [] && Joining(es, wanted[..0]) == []
    ensures Kept(es[..0], wanted) == [] && Dropped(es[..0], wanted) == []
    ensures Removals([]) == [] && Additions([]) == [] && WindowsOf([]) == {}
  {
  }

  lemma EraseStep(es: seq<Entry>, wanted: seq<Entry>, k: nat)
    requires k < |es|
    ensures var kept, dropped := Kept(es[..k], wanted), Dropped(es[..k], wanted);
            var kept', dropped' := Kept(es[..k + 1], wanted), Dropped(es[..k + 1], wanted);
            && (kept + es[k..])[|kept|] == es[k]
            && (kept + es[k..])[..|kept|] + (kept + es[k..])[|kept| + 1..] == kept + es[k + 1..]
            && (es[k] in wanted ==> kept' == kept + [es[k]] && kept' + es[k + 1..] == kept + es[k..]
                                    && dropped' == dropped)
            && (es[k] !in wanted ==> kept' == kept && dropped' == dropped + [es[k]])
            && (es[k] !in wanted ==> Removals(dropped') == Removals(dropped) + [EntryRemoved(es[k])])
            && (es[k] !in wanted ==> WindowsOf(dropped') == WindowsOf(dropped) + {es[k].parentWindow})
  {
    assert es[..k + 1][..k] == es[..k] && es[k..] == [es[k]] + es[k + 1..];
    WindowsOfAppend(Dropped(es[..k], wanted), es[k]);
  }

  lemma AppendStep(es: seq<Entry>, wanted: seq<Entry>, k: nat)
    requires k < |wanted|
    ensures var joining, joining' := Joining(es, wanted[..k]), Joining(es, wanted[..k + 1]);
            && (HasId(es + joining, wanted[k].id) ==> joining' == joining)
            && (!HasId(es + joining, wanted[k].id) ==>
                  && joining' == joining + [wanted[k]]
                  && Additions(joining') == Additions(joining) + [EntryAdded(wanted[k])]
                  && WindowsOf(joining') == WindowsOf(joining) + {wanted[k].parentWindow})
  {
    assert wanted[..k + 1][..k] == wanted[..k];
    WindowsOfAppend(Joining(es, wanted[..k]), wanted[k]);
  }

  lemma WindowsOfAppend(es: seq<Entry>, e: Entry)
    ensures WindowsOf(es + [e]) == WindowsOf(es) + {e.parentWindow}
  {
    assert e in es + [e];
    forall w | w in WindowsOf(es) ensures w in WindowsOf(es + [e]) {
      var x :| x in es && x.parentWindow == w;
      assert x in es + [e];
    }
  }

  // ---------------------------------------------------------------------------------
  // The signals of a synchronisation, said of the old and the new list

  ghost predicate IsWindowTrace(windows: seq<Window>, was: seq<Entry>, es: seq<Entry>, isAppmenu: bool) {
    && (forall i, j | 0 <= i < j < |windows| :: windows[i] != windows[j])
    && (forall w :: w in windows <==> isAppmenu && OfWindow(es, w) != OfWindow(was, w))
  }

  /** One removal for each old entry that is gone, one addition for each new one, the list signal exactly
      if the list differs, and for the application menu one signal for each window whose list differs. */
  ghost predicate Traced(before: seq<Event>, after: seq<Event>, was: seq<Entry>, es: seq<Entry>, isAppmenu: bool) {
    |Kept(was, es)| <= |es| &&
    exists windows ::
      && IsWindowTrace(windows, was, es, isAppmenu)
      && after == before + Removals(Dropped(was, es)) + Additions(es[|Kept(was, es)|..])
                  + (if es != was then [ListUpdated] else []) + WindowEvents(windows)
  }

  lemma {:induction false} KeptDepends(es: seq<Entry>, a: seq<Entry>, b: seq<Entry>)
    requires forall e | e in es :: e in a <==> e in b
    ensures Kept(es, a) == Kept(es, b) && Dropped(es, a) == Dropped(es, b)
  {
    if es != [] {
      assert es == es[..|es| - 1] + [es[|es| - 1]];
      KeptDepends(es[..|es| - 1], a, b);
    }
  }

  lemma ReadBack(was: seq<Entry>, wanted: seq<Entry>)
    requires DistinctIds(was)
    ensures var es, kept := Synced(was, wanted), Kept(was, wanted);
            && Kept(was, es) == kept && Dropped(was, es) == Dropped(was, wanted)
            && |kept| <= |es| && es[|kept|..] == Joining(kept, wanted)
  {
    hide Joining;
    SyncedOutcome(was, wanted);
    KeptDepends(was, wanted, Synced(was, wanted));
  }

  /** What a synchronisation emits can be told from the two lists alone. */
  lemma TraceOfSync(before: seq<Event>, after: seq<Event>, was: seq<Entry>, wanted: seq<Entry>, isAppmenu: bool)
    requires DistinctIds(was)
    requires var dropped, joining := Dropped(was, wanted), Joining(Kept(was, wanted), wanted);
             exists windows: seq<Window> ::
               && after == before + Removals(dropped) + Additions(joining)
                           + (if dropped != [] || joining != [] then [ListUpdated] else []) + WindowEvents(windows)
               && (forall i, j | 0 <= i < j < |windows| :: windows[i] != windows[j])
               && (forall w :: w in windows <==> isAppmenu && OfWindow(Synced(was, wanted), w) != OfWindow(was, w))
    ensures Traced(before, after, was, Synced(was, wanted), isAppmenu)
  {
    hide Kept, Dropped, Joining, Synced, OfWindow, Removals, Additions, WindowEvents, DistinctIds;
    ReadBack(was, wanted);
    ListChangesIff(was, wanted);
    var es, dropped, joining := Synced(was, wanted), Dropped(was, wanted), Joining(Kept(was, wanted), wanted);
    var windows: seq<Window> :|
      && after == before + Removals(dropped) + Additions(joining)
                  + (if dropped != [] || joining != [] then [ListUpdated] else []) + WindowEvents(windows)
      && (forall i, j | 0 <= i < j < |windows| :: windows[i] != windows[j])
      && (forall w :: w in windows <==> isAppmenu && OfWindow(es, w) != OfWindow(was, w));
    assert IsWindowTrace(windows, was, es, isAppmenu);
  }

  /** Removals come before additions, those before the list signal, and the window signals are last. */
  function Rank(e: Event): nat {
    match e
    case EntryRemoved(_) => 0
    case EntryAdded(_) => 1
    case ListUpdated => 2
    case WindowUpdated(_) => 3
  }

  /** No event is repeated, and they come by rank. */
  ghost predicate IsRanked(events: seq<Event>) {
    forall i, j | 0 <= i < j < |events| :: events[i] != events[j] && Rank(events[i]) <= Rank(events[j])
  }

  lemma RankedConcat(a: seq<Event>, b: seq<Event>)
    requires IsRanked(a) && IsRanked(b) && forall x, y | x in a && y in b :: Rank(x) < Rank(y)
    ensures IsRanked(a + b)
  {
    var ab := a + b;
    forall i, j | 0 <= i < j < |ab| ensures ab[i] != ab[j] && Rank(ab[i]) <= Rank(ab[j]) {
      if i < |a| <= j {
        assert ab[i] in a && ab[j] in b;
      }
    }
  }

  lemma RemovalsRanked(es: seq<Entry>)
    requires DistinctIds(es)
    ensures IsRanked(Removals(es)) && IsRanked(Additions(es))
    ensures forall x: Event :: x in Removals(es) <==> x.EntryRemoved? && x.entry in es
    ensures forall x: Event :: x in Additions(es) <==> x.EntryAdded? && x.entry in es
    ensures (forall x | x in Removals(es) :: Rank(x) == 0) && forall x | x in Additions(es) :: Rank(x) == 1
  {
    forall x: Event | x.EntryRemoved? && x.entry in es ensures x in Removals(es) {
      var i :| 0 <= i < |es| && es[i] == x.entry;
      assert Removals(es)[i] == x;
    }
    forall x: Event | x.EntryAdded? && x.entry in es ensures x in Additions(es) {
      var i :| 0 <= i < |es| && es[i] == x.entry;
      assert Additions(es)[i] == x;
    }
  }

  lemma WindowsRanked(ws: seq<Window>)
    requires forall i, j | 0 <= i < j < |ws| :: ws[i] != ws[j]
    ensures IsRanked(WindowEvents(ws))
    ensures forall x: Event :: x in WindowEvents(ws) <==> x.WindowUpdated? && x.window in ws
    ensures forall x | x in WindowEvents(ws) :: Rank(x) == 3
  {
    forall x: Event | x.WindowUpdated? && x.window in ws ensures x in WindowEvents(ws) {
      var i :| 0 <= i < |ws| && ws[i] == x.window;
      assert WindowEvents(ws)[i] == x;
    }
  }

  /** What a listener hears of a synchronisation: each old entry that is gone is removed once, then each new one
      is added once, then the list is updated once if it differs, then each window once whose list differs. */
  lemma TraceTells(before: seq<Event>, after: seq<Event>, was: seq<Entry>, wanted: seq<Entry>, isAppmenu: bool)
    requires DistinctIds(was) && Traced(before, after, was, Synced(was, wanted), isAppmenu)
    ensures before <= after && IsRanked(after[|before|..])
    ensures var es := Synced(was, wanted);
            forall x: Event :: x in after[|before|..] <==>
              match x
              case EntryRemoved(e) => e in was && e !in es
              case EntryAdded(e) => e in es && e !in was
              case ListUpdated => es != was
              case WindowUpdated(w) => isAppmenu && OfWindow(es, w) != OfWindow(was, w)
  {
    hide OfWindow, Removals, Additions, WindowEvents, DistinctIds, Kept, Dropped, Joining, Synced, IsRanked;
    var es := Synced(was, wanted);
    ReadBack(was, wanted);
    PartsOfSynced(was, wanted);
    var gone, come := Dropped(was, es), es[|Kept(was, es)|..];
    var listed: seq<Event> := if es != was then [ListUpdated] else [];
    var windows :| IsWindowTrace(windows, was, es, isAppmenu)
                   && after == before + Removals(gone) + Additions(come) + listed + WindowEvents(windows);
    assert after[|before|..] == Removals(gone) + Additions(come) + listed + WindowEvents(windows);
    RemovalsRanked(gone);
    RemovalsRanked(come);
    WindowsRanked(windows);
    ListedRanked(listed);
    RankedByParts(Removals(gone), Additions(come), listed, WindowEvents(windows));
  }

  lemma ListedRanked(events: seq<Event>)
    requires events == [] || events == [ListUpdated]
    ensures IsRanked(events) && forall x | x in events :: Rank(x) == 2
  {
  }

  lemma RankedByParts(a: seq<Event>, b: seq<Event>, c: seq<Event>, d: seq<Event>)
    requires IsRanked(a) && IsRanked(b) && IsRanked(c) && IsRanked(d)
    requires (forall x | x in a :: Rank(x) == 0) && (forall x | x in b :: Rank(x) == 1)
    requires (forall x | x in c :: Rank(x) == 2) && (forall x | x in d :: Rank(x) == 3)
    ensures IsRanked(a + b + c + d)
    ensures forall x :: x in a + b + c + d <==> x in a || x in b || x in c || x in d
  {
    hide IsRanked, Rank;
    RankedConcat(a, b);
    assert forall x | x in a + b :: x in a || x in b;
    RankedConcat(a + b, c);
    assert forall x | x in a + b + c :: x in a + b || x in c;
    RankedConcat(a + b + c, d);
  }

  lemma PartsOfSynced(es: seq<Entry>, wanted: seq<Entry>)
    requires DistinctIds(es)
    ensures DistinctIds(Dropped(es, wanted)) && DistinctIds(Joining(Kept(es, wanted), wanted))
    ensures forall e :: e in Dropped(es, wanted) <==> e in es && e !in Synced(es, wanted)
    ensures forall e :: e in Joining(Kept(es, wanted), wanted) <==> e in Synced(es, wanted) && e !in es
  {
    var kept, joining := Kept(es, wanted), Joining(Kept(es, wanted), wanted);
    KeptOrDropped(es, wanted);
    KeptDistinct(es, wanted);
    DroppedDistinct(es, wanted);
    JoiningDistinct(kept, wanted);
    JoiningMembers(kept, wanted);
    assert joining == (kept + joining)[|kept|..];
    assert forall e | e in joining :: e in es ==> e in kept;
  }

  lemma {:induction false} DroppedDistinct(es: seq<Entry>, wanted: seq<Entry>)
    requires DistinctIds(es)
    ensures DistinctIds(Dropped(es, wanted))
  {
    if es != [] {
      var rest, last := es[..|es| - 1], es[|es| - 1];
      assert es == rest + [last] && Dropped(rest, wanted) + [] == Dropped(rest, wanted);
      DistinctAppend(rest, last);
      DroppedDistinct(rest, wanted);
      KeptOrDropped(rest, wanted);
      DistinctAppend(Dropped(rest, wanted), last);
    }
  }

  // ---------------------------------------------------------------------------------
  // The objects

  class Indicator {
    const name: string
    const isAppmenu: bool
    var entries: seq<Entry>
    var connected: set<Entry>                     // the keys of entries_connections_
    var windowEntries: map<Window, seq<Entry>>    // only the application menu indicator fills it
    ghost var events: seq<Event>

    ghost predicate Valid()
      reads `entries, `connected, `windowEntries
    {
      && DistinctIds(entries)
      && connected == Elements(entries)
      && (isAppmenu ==> Indexes(windowEntries, entries))
    }

    constructor (name: string, isAppmenu: bool)
      ensures Valid() && this.name == name && this.isAppmenu == isAppmenu
      ensures entries == [] && events == []
    {
      this.name, this.isAppmenu := name, isAppmenu;
      entries, connected, windowEntries, events := [], {}, map[], [];
    }

    method GetEntry(id: string) returns (found: Entry?)
      ensures found == null <==> !HasId(entries, id)
      ensures found != null ==> found in entries && found.id == id
      ensures found != null ==> exists i | 0 <= i < |entries| :: entries[i] == found && !HasId(entries[..i], id)
    {
      for i := 0 to |entries|
        invariant !HasId(entries[..i], id)
      {
        if entries[i].id == id {
          return entries[i];
        }
      }
      return null;
    }

    method OnEntryAdded(entry: Entry)
      modifies `windowEntries, `events
      ensures events == old(events) + [EntryAdded(entry)]
      ensures isAppmenu ==> windowEntries == IndexWith(old(windowEntries), entry)
    {
      events := events + [EntryAdded(entry)];
      if isAppmenu {
        var w := entry.parentWindow;
        windowEntries := windowEntries[w := (if w in windowEntries then windowEntries[w] else []) + [entry]];
      }
    }

    method OnEntryRemoved(entry: Entry)
      modifies `windowEntries, `events
      ensures events == old(events) + [EntryRemoved(entry)]
      ensures isAppmenu ==> windowEntries == IndexWithout(old(windowEntries), entry)
    {
      events := events + [EntryRemoved(entry)];
      if isAppmenu && entry.parentWindow in windowEntries {
        var bucket := windowEntries[entry.parentWindow];
        var left: seq<Entry> := [];
        for i := 0 to |bucket|
          invariant left == Without(bucket[..i], entry)
        {
          assert bucket[..i + 1][..i] == bucket[..i];
          if bucket[i] != entry {
            left := left + [bucket[i]];
          }
        }
        assert bucket[..|bucket|] == bucket;
        if left == [] {
          windowEntries := windowEntries - {entry.parentWindow};
        } else {
          windowEntries := windowEntries[entry.parentWindow := left];
        }
      }
    }

    method EraseAt(i: nat)
      requires Valid() && i < |entries|
      modifies `entries, `connected, `windowEntries, `events
      ensures Valid() && entries == old(entries[..i] + entries[i + 1..])
      ensures events == old(events) + [EntryRemoved(old(entries[i]))]
    {
      hide Elements, DistinctIds, Indexes, IndexWith, IndexWithout;
      var entry := entries[i];
      connected := connected - {entry};
      EraseKeepsIndex(entries, i, windowEntries);
      entries := entries[..i] + entries[i + 1..];
      OnEntryRemoved(entry);
    }

    // First half of the base class synchronisation: erase what the argument does not hold.
    method EraseStale(wanted: seq<Entry>) returns (changed: bool, windows: set<Window>)
      requires Valid()
      modifies `entries, `connected, `windowEntries, `events
      ensures Valid() && entries == Kept(old(entries), wanted)
      ensures var dropped := Dropped(old(entries), wanted);
              && events == old(events) + Removals(dropped)
              && changed == (dropped != []) && windows == WindowsOf(dropped)
    {
      hide Elements, DistinctIds, Indexes, IndexWith, IndexWithout;
      hide Kept, Dropped, Joining, WindowsOf, HasId, Removals, Additions;
      changed, windows := false, {};
      ghost var es := entries;
      ghost var k := 0;
      var i := 0;
      NothingYet(es, wanted);
      while i < |entries|
        invariant Valid() && k <= |es|
        invariant entries == Kept(es[..k], wanted) + es[k..] && i == |Kept(es[..k], wanted)|
        invariant events == old(events) + Removals(Dropped(es[..k], wanted))
        invariant windows == WindowsOf(Dropped(es[..k], wanted))
        invariant changed == (Dropped(es[..k], wanted) != [])
        decreases |entries| - i
      {
        EraseStep(es, wanted, k);
        ghost var emitted := Removals(Dropped(es[..k], wanted));
        var entry := entries[i];
        if entry !in wanted {
          assert old(events) + (emitted + [EntryRemoved(entry)]) == (old(events) + emitted) + [EntryRemoved(entry)];
          EraseAt(i);
          changed, windows := true, windows + {entry.parentWindow};
        } else {
          i := i + 1;
        }
        k := k + 1;
      }
      assert es[..|es|] == es;
    }

    // Second half: append what is missing.
    method AppendMissing(wanted: seq<Entry>) returns (changed: bool, windows: set<Window>)
      requires Valid()
      modifies `entries, `connected, `windowEntries, `events
      ensures Valid() && entries == old(entries) + Joining(old(entries), wanted)
      ensures var joining := Joining(old(entries), wanted);
              && events == old(events) + Additions(joining)
              && changed == (joining != []) && windows == WindowsOf(joining)
    {
      hide Elements, DistinctIds, Indexes, IndexWith, IndexWithout;
      hide Kept, Dropped, Joining, WindowsOf, HasId, Removals, Additions;
      changed, windows := false, {};
      ghost var es := entries;
      NothingYet(es, wanted);
      for j := 0 to |wanted|
        invariant Valid() && entries == es + Joining(es, wanted[..j])
        invariant events == old(events) + Additions(Joining(es, wanted[..j]))
        invariant windows == WindowsOf(Joining(es, wanted[..j]))
        invariant changed == (Joining(es, wanted[..j]) != [])
      {
        var newEntry := wanted[j];
        AppendStep(es, wanted, j);
        var present := GetEntry(newEntry.id);
        if present == null {
          connected := connected + {newEntry};
          AppendKeepsIndex(entries, newEntry, windowEntries);
          entries := entries + [newEntry];
          OnEntryAdded(newEntry);
          changed, windows := true, windows + {newEntry.parentWindow};
        }
      }
      assert wanted[..|wanted|] == wanted;
    }

    // The base class synchronisation; the result is what the slots of the derived class collect.
    method SyncEntries(wanted: seq<Entry>) returns (changedWindows: set<Window>)
      requires Valid()
      modifies `entries, `connected, `windowEntries, `events
      ensures Valid() && entries == Synced(old(entries), wanted)
      ensures var dropped, joining := Dropped(old(entries), wanted), Joining(Kept(old(entries), wanted), wanted);
              && events == old(events) + Removals(dropped) + Additions(joining)
                           + (if dropped != [] || joining != [] then [ListUpdated] else [])
              && changedWindows == WindowsOf(dropped) + WindowsOf(joining)
    {
      var erased, erasedWindows := EraseStale(wanted);
      var added, addedWindows := AppendMissing(wanted);
      if erased || added {
        events := events + [ListUpdated];
      }
      changedWindows := erasedWindows + addedWindows;
    }

    method Sync(wanted: seq<Entry>)
      requires Valid()
      modifies `entries, `connected, `windowEntries, `events
      ensures Valid() && entries == Synced(old(entries), wanted)
      ensures var dropped, joining := Dropped(old(entries), wanted), Joining(Kept(old(entries), wanted), wanted);
              exists windows: seq<Window> ::
                && events == old(events) + Removals(dropped) + Additions(joining)
                             + (if dropped != [] || joining != [] then [ListUpdated] else []) + WindowEvents(windows)
                && (forall i, j | 0 <= i < j < |windows| :: windows[i] != windows[j])
                && (forall w :: w in windows <==> isAppmenu && OfWindow(entries, w) != OfWindow(old(entries), w))
    {
      hide Kept, Dropped, Joining, OfWindow, WindowsOf, Removals, Additions;
      hide DistinctIds, Elements, Indexes;
      var changedWindows := SyncEntries(wanted);
      ghost var windows: seq<Window> := [];
      if isAppmenu {
        windows := UpdateWindows(changedWindows);
        forall w ensures w in windows <==> OfWindow(entries, w) != OfWindow(old(entries), w) {
          WindowChangesIff(old(entries), wanted, w);
        }
      }
    }

    // The hash table of changed windows gives them in an order of its own.
    method UpdateWindows(windowSet: set<Window>) returns (ghost windows: seq<Window>)
      modifies `events
      ensures events == old(events) + WindowEvents(windows)
      ensures forall i, j | 0 <= i < j < |windows| :: windows[i] != windows[j]
      ensures forall w :: w in windows <==> w in windowSet
    {
      windows := [];
      var left := windowSet;
      while left != {}
        invariant events == old(events) + WindowEvents(windows)
        invariant forall i, j | 0 <= i < j < |windows| :: windows[i] != windows[j]
        invariant forall w :: w in windowSet <==> w in windows || w in left
        invariant forall w | w in windows :: w !in left
        decreases left
      {
        var win :| win in left;
        events := events + [WindowUpdated(win)];
        windows := windows + [win];
        left := left - {win};
      }
    }

    method GetEntriesForWindow(w: Window) returns (found: seq<Entry>)
      requires Valid() && isAppmenu
      ensures found == OfWindow(entries, w)
    {
      if w in windowEntries {
        return windowEntries[w];
      }
      return [];
    }
  }
}
