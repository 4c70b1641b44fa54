/** The client side of the panel service: snapshots of entries are reconciled into live objects, and
    entry locations are reported back (UnityCore/DBusIndicators.cpp, UnityCore/Indicators.cpp). */
module DBusIndicators {
  import opened Flood
  import opened IndicatorEntry
  import opened IndicatorSync
  import opened LocationDelta

  const APPMENU_INDICATOR_NAME := "libappmenu.so"

  /** One line of the snapshot the service sends; an empty entry id announces an empty indicator. */
  datatype Row = Row(indicator: string, entry: string, nameHint: string, parentWindow: nat,
                     caption: Label, image: Image, priority: int)

  ghost predicate DistinctRows(rows: seq<Row>) {
    forall i, j | 0 <= i < j < |rows| && rows[i].indicator == rows[j].indicator && rows[i].entry != "" ::
      rows[i].entry != rows[j].entry
  }

  ghost function Names(rows: seq<Row>): set<string> {
    set r | r in rows :: r.indicator
  }

  /** The lines that carry an entry of the indicator called name, in order. */
  ghost function RowsFor(rows: seq<Row>, name: string): seq<Row> {
    if rows == [] then [] else
      var r := rows[|rows| - 1];
      RowsFor(rows[..|rows| - 1], name) + if r.indicator == name && r.entry != "" then [r] else []
  }

  ghost predicate Shows(e: Entry, r: Row)
    reads e`caption, e`image, e`priority
  {
    e.id == r.entry && e.caption == r.caption && e.image == r.image && e.priority == r.priority
  }

  /** Some entry object of the old list has both the id and the priority of the line. */
  ghost predicate Reusable(es: seq<Entry>, r: Row)
    reads es`priority
  {
    exists e | e in es :: e.id == r.entry && e.priority == r.priority
  }

  /** The list collected for one indicator: it shows the lines one by one, and holds an old object
      exactly where one can be reused. */
  ghost predicate Collects(list: seq<Entry>, rows: seq<Row>, es: seq<Entry>)
    reads list`caption, list`image, list`priority, es`priority
  {
    && |list| == |rows|
    && forall j | 0 <= j < |list| ::
         && Shows(list[j], rows[j])
         && (list[j] in es <==> Reusable(es, rows[j]))
         && (list[j] !in es ==> list[j].nameHint == rows[j].nameHint && list[j].parentWindow == rows[j].parentWindow)
  }

  lemma CollectsAppend(list: seq<Entry>, rows: seq<Row>, es: seq<Entry>, e: Entry, row: Row)
    requires Collects(list, rows, es)
    requires Shows(e, row) && (e in es <==> Reusable(es, row))
    requires e !in es ==> e.nameHint == row.nameHint && e.parentWindow == row.parentWindow
    ensures Collects(list + [e], rows + [row], es)
  {
  }

  lemma CollectsNothing(es: seq<Entry>)
    ensures Collects([], [], es)
  {
  }

  type Lists = map<string, seq<Entry>>

  datatype OwnerEvent = IndicatorAdded(name: string) | IndicatorRemoved(name: string)

  ghost function RemovedEvents(names: seq<string>): seq<OwnerEvent> {
    seq(|names|, i requires 0 <= i < |names| => IndicatorRemoved(names[i]))
  }

  /** Every indicator that is mentioned for the first time and not known yet is announced. */
  ghost function AddedEvents(rows: seq<Row>, known: set<string>): seq<OwnerEvent> {
    if rows == [] then [] else
      var r, earlier := rows[|rows| - 1], rows[..|rows| - 1];
      AddedEvents(earlier, known) + if r.indicator in known + Names(earlier) then [] else [IndicatorAdded(r.indicator)]
  }

  function At(lists: Lists, name: string): seq<Entry> {
    if name in lists then lists[name] else []
  }

  type Traces = map<string, seq<Event>>

  function Heard(traces: Traces, name: string): seq<Event> {
    if name in traces then traces[name] else []
  }

  ghost function Objects(lists: Lists): set<Entry> {
    set n, e | n in lists && e in lists[n] :: e
  }

  /** The entries of the indicators that the snapshot mentions. */
  ghost function Mentioned(rows: seq<Row>, lists: Lists): set<Entry> {
    set n, e | n in lists && n in Names(rows) && e in lists[n] :: e
  }

  lemma AtMentioned(rows: seq<Row>, lists: Lists, i: nat)
    requires i < |rows|
    ensures forall e | e in At(lists, rows[i].indicator) :: e in Mentioned(rows, lists)
  {
    assert rows[i] in rows;
    assert rows[i].indicator in Names(rows);
  }

  // ---- What happens to the old objects ----

  datatype Snapshot = Snapshot(caption: Label, image: Image, priority: int, signals: seq<Signal>)

  type Snapshots = map<Entry, Snapshot>

  /** One update signal for a changed label and one for a changed image. */
  function Updates(relabelled: bool, redrawn: bool): seq<Signal> {
    (if relabelled then [Updated] else []) + (if redrawn then [Updated] else [])
  }

  /** Since the snapshot the entry has kept its priority and has emitted exactly one update for each of
      label and image that differs. */
  ghost predicate Tracked(e: Entry, was: Snapshot)
    reads e`caption, e`image, e`priority, e`signals
  {
    e.priority == was.priority && e.signals == was.signals + Updates(e.caption != was.caption, e.image != was.image)
  }

  ghost predicate SameLooks(e: Entry, was: Snapshot)
    reads e`caption, e`image
  {
    e.caption == was.caption && e.image == was.image
  }

  ghost predicate MentionsEntry(rows: seq<Row>, name: string, id: string) {
    exists r | r in rows :: r.indicator == name && r.entry == id
  }

  /** All old objects are tracked, and look the same unless a line has mentioned their id. */
  ghost predicate Follows(before: Lists, was: Snapshots, done: seq<Row>)
    reads Objects(before)`caption, Objects(before)`image, Objects(before)`priority, Objects(before)`signals
  {
    forall n, e | n in before && e in before[n] ::
      && e in Objects(before) && e in was && Tracked(e, was[e])
      && (!MentionsEntry(done, n, e.id) ==> SameLooks(e, was[e]))
  }

  lemma MentionsStep(done: seq<Row>, row: Row, name: string, id: string)
    ensures MentionsEntry(done + [row], name, id) <==>
              MentionsEntry(done, name, id) || (row.indicator == name && row.entry == id)
  {
    if MentionsEntry(done, name, id) {
      var r :| r in done && r.indicator == name && r.entry == id;
      assert r in done + [row];
    }
    assert row in done + [row];
  }

  /** A line does not repeat an id that has been mentioned. */
  lemma NotYetMentioned(done: seq<Row>, row: Row)
    requires DistinctRows(done + [row]) && row.entry != ""
    ensures !MentionsEntry(done, row.indicator, row.entry)
  {
    forall r | r in done && r.indicator == row.indicator ensures r.entry != row.entry {
      var i :| 0 <= i < |done| && done[i] == r;
      assert (done + [row])[i] == r && (done + [row])[|done|] == row;
    }
  }

  /** An indicator of the right name is in order and lists es. */
  ghost predicate InOrder(i: Indicator, name: string, es: seq<Entry>)
    reads i`entries, i`connected, i`windowEntries
  {
    i.name == name && i.Valid() && i.entries == es
  }

  /** It lists es and has emitted nothing since `heard`. */
  ghost predicate IsReady(i: Indicator, name: string, es: seq<Entry>, heard: seq<Event>)
    reads i`entries, i`connected, i`windowEntries, i`events
  {
    InOrder(i, name, es) && i.events == heard
  }

  /** It lists es and has emitted exactly the signals of the change from `was` to es. */
  ghost predicate IsSynced(i: Indicator, name: string, was: seq<Entry>, es: seq<Entry>, heard: seq<Event>)
    reads i`entries, i`connected, i`windowEntries, i`events
  {
    InOrder(i, name, es) && Traced(heard, i.events, was, es, i.isAppmenu)
  }

  /** No object is listed, old or new, for two different indicators. */
  ghost predicate Apart(before: Lists, built: Lists) {
    && (forall m, n, e | m in built && n in built && e in built[m] && e in built[n] :: m == n)
    && (forall m, n, e | m in built && n in before && e in built[m] && e in before[n] :: m == n)
  }

  ghost predicate IsNew(e: Entry, lists: Lists) {
    forall n | n in lists :: e !in lists[n]
  }

  lemma ApartGrow(before: Lists, built: Lists, name: string, list: seq<Entry>)
    requires Apart(before, built)
    requires forall e | e in list && e !in At(built, name) && e !in At(before, name) ::
               IsNew(e, before) && IsNew(e, built)
    requires forall n, e | n in before && e in before[n] && e in At(before, name) :: n == name
    ensures Apart(before, built[name := list])
  {
  }

  lemma ApartLists(before: Lists, built: Lists, m: string, n: string)
    requires Apart(before, built) && n in built && m != n
    ensures forall e | e in At(before, m) :: e !in built[n]
  {
  }

  /** The list an indicator ends with. */
  ghost function Outcome(before: Lists, built: Lists, name: string): seq<Entry> {
    if name in built then Synced(At(before, name), built[name]) else At(before, name)
  }

  lemma OutcomeApart(before: Lists, built: Lists)
    requires Apart(before, built)
    requires forall m, n, e | m in before && n in before && e in before[m] && e in before[n] :: m == n
    requires forall n | n in before :: DistinctIds(before[n])
    ensures forall m, n, e | e in Outcome(before, built, m) && e in Outcome(before, built, n) :: m == n
  {
    forall n | n in built ensures forall e | e in Outcome(before, built, n) :: e in built[n] {
      SyncedOutcome(At(before, n), built[n]);
    }
  }

  /** A line of the snapshot that carries an entry of the indicator called name. */
  predicate HasEntryOf(r: Row, name: string) {
    r.indicator == name && r.entry != ""
  }

  lemma {:induction false} RowsForDistinct(rows: seq<Row>, name: string)
    requires DistinctRows(rows)
    ensures forall i, j | 0 <= i < j < |RowsFor(rows, name)| ::
              RowsFor(rows, name)[i].entry != RowsFor(rows, name)[j].entry
  {
    if rows != [] {
      var rest, last := rows[..|rows| - 1], rows[|rows| - 1];
      assert rows == rest + [last];
      DistinctPrefix(rows, |rows| - 1);
      RowsForDistinct(rest, name);
      forall i | 0 <= i < |RowsFor(rest, name)|
        ensures name == last.indicator ==> RowsFor(rest, name)[i].entry != last.entry
      {
        RowsForApart(rest, last, name, i);
      }
    }
  }

  ghost predicate LineShown(es: seq<Entry>, r: Row)
    reads es`caption, es`image, es`priority
  {
    exists e | e in es :: Shows(e, r)
  }

  /** Some entry shows the line with its name hint and its window as well. */
  ghost predicate LineShownFully(es: seq<Entry>, r: Row)
    reads es`caption, es`image, es`priority
  {
    exists e | e in es :: Shows(e, r) && e.nameHint == r.nameHint && e.parentWindow == r.parentWindow
  }

  ghost predicate HasLine(e: Entry, was: seq<Entry>, rows: seq<Row>, name: string)
    reads e`caption, e`image, e`priority
  {
    exists r | r in rows && HasEntryOf(r, name) ::
      Shows(e, r) && (e in was || (e.nameHint == r.nameHint && e.parentWindow == r.parentWindow))
  }

  /** The entries are, one for one, what the snapshot says about the indicator; an object that was not
      there before also has the line's name hint and window, which a reused object keeps as they were. */
  ghost predicate Mirrors(es: seq<Entry>, was: seq<Entry>, rows: seq<Row>, name: string)
    reads es`caption, es`image, es`priority
  {
    && DistinctIds(es)
    && (forall r | r in rows && HasEntryOf(r, name) :: LineShown(es, r))
    && (forall e | e in es :: HasLine(e, was, rows, name))
  }

  /** The snapshot repeats the id and the priority of an entry. */
  ghost predicate Repeats(rows: seq<Row>, name: string, id: string, priority: int) {
    exists r | r in rows && HasEntryOf(r, name) :: r.entry == id && r.priority == priority
  }

  lemma CollectsDistinct(list: seq<Entry>, rows: seq<Row>, name: string, es: seq<Entry>)
    requires DistinctRows(rows) && Collects(list, RowsFor(rows, name), es)
    ensures DistinctIds(list)
  {
    RowsForDistinct(rows, name);
    forall i, j | 0 <= i < j < |list| ensures list[i].id != list[j].id {
      assert Shows(list[i], RowsFor(rows, name)[i]) && Shows(list[j], RowsFor(rows, name)[j]);
    }
  }

  lemma LineIsShown(list: seq<Entry>, rows: seq<Row>, name: string, es: seq<Entry>, r: Row)
    requires Collects(list, RowsFor(rows, name), es) && r in rows && HasEntryOf(r, name)
    ensures LineShown(list, r)
  {
    var j := LineIndex(rows, name, r);
    assert list[j] in list && Shows(list[j], r);
  }

  lemma LineIndex(rows: seq<Row>, name: string, r: Row) returns (j: nat)
    requires r in rows && HasEntryOf(r, name)
    ensures j < |RowsFor(rows, name)| && RowsFor(rows, name)[j] == r
  {
    RowsForMembers(rows, name);
    var lines := RowsFor(rows, name);
    assert r in lines;
    j :| 0 <= j < |lines| && lines[j] == r;
  }

  lemma EntryHasLine(list: seq<Entry>, rows: seq<Row>, name: string, es: seq<Entry>, e: Entry)
    requires Collects(list, RowsFor(rows, name), es) && e in list
    ensures HasLine(e, es, rows, name)
  {
    RowsForMembers(rows, name);
    var lines := RowsFor(rows, name);
    var j :| 0 <= j < |list| && list[j] == e;
    assert lines[j] in lines && Shows(e, lines[j]);
  }

  /** What a snapshot makes of one mentioned indicator... */
  lemma OutcomeMirrors(list: seq<Entry>, rows: seq<Row>, name: string, es: seq<Entry>)
    requires DistinctRows(rows) && Collects(list, RowsFor(rows, name), es) && DistinctIds(es)
    ensures Mirrors(Synced(es, list), es, rows, name)
  {
    hide Synced, DistinctRows, DistinctIds, RowsFor, Collects, Shows, HasEntryOf;
    CollectsDistinct(list, rows, name, es);
    SyncedOutcome(es, list);
    SyncedIsExactlyWanted(es, list);
    forall r | r in rows && HasEntryOf(r, name) ensures LineShown(Synced(es, list), r) {
      LineIsShown(list, rows, name, es, r);
    }
    forall e | e in Synced(es, list) ensures HasLine(e, es, rows, name) {
      EntryHasLine(list, rows, name, es, e);
    }
  }

  /** ... and of its old objects. */
  lemma OutcomeSurvivors(list: seq<Entry>, rows: seq<Row>, name: string, es: seq<Entry>, e: Entry)
    requires DistinctRows(rows) && Collects(list, RowsFor(rows, name), es) && DistinctIds(es) && e in es
    ensures e in Synced(es, list) <==> Repeats(rows, name, e.id, e.priority)
  {
    hide Synced, DistinctRows, RowsFor;
    var lines := RowsFor(rows, name);
    RowsForMembers(rows, name);
    SyncedOutcome(es, list);
    if e in list {
      var j :| 0 <= j < |list| && list[j] == e;
      assert lines[j] in lines && Shows(e, lines[j]);
    }
    if Repeats(rows, name, e.id, e.priority) {
      var r :| r in rows && HasEntryOf(r, name) && r.entry == e.id && r.priority == e.priority;
      assert r in lines;
      var j :| 0 <= j < |lines| && lines[j] == r;
      assert Reusable(es, lines[j]) && list[j] in es && Shows(list[j], lines[j]);
      var i, k :| 0 <= i < |es| && 0 <= k < |es| && es[i] == e && es[k] == list[j];
      assert list[j] in list;
    }
  }

  // ---- The order of the entries ----

  /** The old objects that stay, in their old order. */
  ghost function Surviving(was: seq<Entry>, rows: seq<Row>, name: string): seq<Entry>
    reads was`priority
  {
    if was == [] then [] else
      var e := was[|was| - 1];
      Surviving(was[..|was| - 1], rows, name) + if Repeats(rows, name, e.id, e.priority) then [e] else []
  }

  /** The ids of the lines for which no old object can be reused, in the order of the lines. */
  ghost function NewcomerIds(lines: seq<Row>, was: seq<Entry>): seq<string>
    reads was`priority
  {
    if lines == [] then [] else
      var r := lines[|lines| - 1];
      NewcomerIds(lines[..|lines| - 1], was) + if Reusable(was, r) then [] else [r.entry]
  }

  ghost function Ids(es: seq<Entry>): seq<string> {
    seq(|es|, i requires 0 <= i < |es| => es[i].id)
  }

  /** First the old objects that stay, in their old order, and then the new ones, in the order of the
      snapshot. */
  ghost predicate Ordered(es: seq<Entry>, was: seq<Entry>, rows: seq<Row>, name: string)
    reads was`priority
  {
    var kept := Surviving(was, rows, name);
    kept <= es && Ids(es[|kept|..]) == NewcomerIds(RowsFor(rows, name), was)
  }

  lemma {:induction false} KeptSurvive(es: seq<Entry>, list: seq<Entry>, rows: seq<Row>, name: string)
    requires forall e | e in es :: e in list <==> Repeats(rows, name, e.id, e.priority)
    ensures Kept(es, list) == Surviving(es, rows, name)
  {
    hide Repeats;
    if es != [] {
      assert es == es[..|es| - 1] + [es[|es| - 1]];
      KeptSurvive(es[..|es| - 1], list, rows, name);
    }
  }

  /** Of the list collected for the first k lines, the new objects join, in order. */
  lemma {:induction false} JoiningNewcomers(list: seq<Entry>, lines: seq<Row>, es: seq<Entry>, k: nat)
    requires Collects(list, lines, es) && DistinctIds(list) && k <= |list|
    ensures Ids(Joining(Kept(es, list), list[..k])) == NewcomerIds(lines[..k], es)
    ensures forall e | e in Joining(Kept(es, list), list[..k]) :: e in list[..k]
    decreases k
  {
    hide Reusable, Kept;
    if k > 0 {
      JoiningNewcomers(list, lines, es, k - 1);
      assert list[..k][..k - 1] == list[..k - 1] && lines[..k][..k - 1] == lines[..k - 1];
      JoinsIfNew(list, lines, es, k - 1);
    }
  }

  lemma JoinsIfNew(list: seq<Entry>, lines: seq<Row>, es: seq<Entry>, k: nat)
    requires Collects(list, lines, es) && DistinctIds(list) && k < |list|
    requires forall e | e in Joining(Kept(es, list), list[..k]) :: e in list[..k]
    ensures HasId(Kept(es, list) + Joining(Kept(es, list), list[..k]), list[k].id) <==> Reusable(es, lines[k])
    ensures list[k].id == lines[k].entry
  {
    hide Reusable, Kept, Joining, Shows;
    KeptOrDropped(es, list);
    var kept, joining, e := Kept(es, list), Joining(Kept(es, list), list[..k]), list[k];
    assert e in list && (e in es <==> Reusable(es, lines[k]));
    if e in es {
      assert e in kept + joining;
    }
    if HasId(kept + joining, e.id) {
      var x: Entry :| x in kept + joining && x.id == e.id;
      assert x in list;
      var i :| 0 <= i < |list| && list[i] == x;
      assert i == k && x == e;
      assert forall m | 0 <= m < k :: list[..k][m].id != e.id;
      assert e !in list[..k];
    }
    IdShown(e, lines[k]);
  }

  lemma IdShown(e: Entry, r: Row)
    requires Shows(e, r)
    ensures e.id == r.entry
  {
  }

  lemma OutcomeOrdered(list: seq<Entry>, rows: seq<Row>, name: string, es: seq<Entry>)
    requires DistinctRows(rows) && Collects(list, RowsFor(rows, name), es) && DistinctIds(es)
    ensures Ordered(Synced(es, list), es, rows, name)
  {
    hide Joining, Kept, DistinctRows, RowsFor, Repeats, Shows, Surviving, NewcomerIds, Collects;
    CollectsDistinct(list, rows, name, es);
    SyncedOutcome(es, list);
    forall e | e in es ensures e in list <==> Repeats(rows, name, e.id, e.priority) {
      OutcomeSurvivors(list, rows, name, es, e);
    }
    KeptSurvive(es, list, rows, name);
    assert |list| == |RowsFor(rows, name)| by {
      CollectsLength(list, RowsFor(rows, name), es);
    }
    JoiningNewcomers(list, RowsFor(rows, name), es, |list|);
    assert list[..|list|] == list && RowsFor(rows, name)[..|list|] == RowsFor(rows, name);
    var kept := Kept(es, list);
    assert Synced(es, list)[|kept|..] == Joining(kept, list);
  }

  lemma CollectsLength(list: seq<Entry>, lines: seq<Row>, es: seq<Entry>)
    requires Collects(list, lines, es)
    ensures |list| == |lines|
  {
  }

  // ---- The name hint and the window ----

  /** An old object that will be reused for the line has another name hint or another window. */
  ghost predicate Stale(was: seq<Entry>, r: Row)
    reads was`priority
  {
    exists e | e in was ::
      e.id == r.entry && e.priority == r.priority && (e.nameHint != r.nameHint || e.parentWindow != r.parentWindow)
  }

  /** A line's name hint and window are taken over exactly when no old object with its id and priority
      has others: a reused object keeps its own. */
  lemma LineIsShownFullyIff(list: seq<Entry>, rows: seq<Row>, name: string, es: seq<Entry>, r: Row)
    requires DistinctRows(rows) && Collects(list, RowsFor(rows, name), es) && DistinctIds(es)
    requires r in rows && HasEntryOf(r, name)
    ensures LineShownFully(Synced(es, list), r) <==> !Stale(es, r)
  {
    hide Synced, DistinctRows, RowsFor, HasEntryOf;
    CollectsDistinct(list, rows, name, es);
    SyncedIsExactlyWanted(es, list);
    var j := LineIndex(rows, name, r);
    var x := list[j];
    assert x in list && Shows(x, r);
    forall e | e in Synced(es, list) && Shows(e, r) ensures e == x {
      SameEntry(list, e, x);
    }
    forall e | e in es && e.id == r.entry && e.priority == r.priority ensures e == x {
      assert Reusable(es, r) && x in es;
      SameEntry(es, e, x);
    }
  }

  lemma SameEntry(es: seq<Entry>, e: Entry, x: Entry)
    requires DistinctIds(es) && e in es && x in es && e.id == x.id
    ensures e == x
  {
    var i, k :| 0 <= i < |es| && 0 <= k < |es| && es[i] == e && es[k] == x;
  }

  /** An application menu entry that moves to another window while its id and priority stay the same
      goes on being listed for the old window, and the new one does not get it. */
  lemma MovedEntryStaysBehind(e: Entry, w: nat)
    requires e.id != "" && w != e.parentWindow
    ensures var rows := [Row("libappmenu.so", e.id, e.nameHint, w, e.caption, e.image, e.priority)];
            && Collects([e], RowsFor(rows, "libappmenu.so"), [e]) && Stale([e], rows[0])
            && OfWindow(Synced([e], [e]), w) == [] && OfWindow(Synced([e], [e]), e.parentWindow) == [e]
  {
    hide Synced, OfWindow;
    var row := Row("libappmenu.so", e.id, e.nameHint, w, e.caption, e.image, e.priority);
    assert RowsFor([row], "libappmenu.so") == [row] by {
      RowsForStep([], row, "libappmenu.so");
    }
    SameEntryStays(e);
    OfWindowSingle(e, w);
    OfWindowSingle(e, e.parentWindow);
  }

  lemma SameEntryStays(e: Entry)
    ensures Synced([e], [e]) == [e]
  {
    assert [e][..0] == [];
    assert Kept([e], [e]) == [e];
    assert Joining([e], [e]) == [] by {
      assert e in [e] + [];
      assert HasId([e] + [], e.id);
    }
  }

  // ---- All of it ----

  /** What a snapshot makes of one mentioned indicator: its lines are shown; an old object stays exactly
      when the snapshot repeats its id and its priority; the order is fixed; and a line's name hint and
      window are shown too exactly when no reused object has others. */
  ghost predicate Reconciled(es: seq<Entry>, was: seq<Entry>, rows: seq<Row>, name: string)
    reads es`caption, es`image, es`priority, was`priority
  {
    && Mirrors(es, was, rows, name)
    && (forall e | e in was :: e in es <==> Repeats(rows, name, e.id, e.priority))
    && Ordered(es, was, rows, name)
    && (forall r | r in rows && HasEntryOf(r, name) :: LineShownFully(es, r) <==> !Stale(was, r))
  }

  lemma OutcomeReconciled(list: seq<Entry>, rows: seq<Row>, name: string, es: seq<Entry>)
    requires DistinctRows(rows) && Collects(list, RowsFor(rows, name), es) && DistinctIds(es)
    ensures Reconciled(Synced(es, list), es, rows, name)
  {
    hide Synced, DistinctRows, RowsFor, Collects, DistinctIds, Mirrors, Repeats, Ordered, LineShownFully, Stale;
    OutcomeMirrors(list, rows, name, es);
    OutcomeOrdered(list, rows, name, es);
    forall e | e in es ensures e in Synced(es, list) <==> Repeats(rows, name, e.id, e.priority) {
      OutcomeSurvivors(list, rows, name, es, e);
    }
    forall r | r in rows && HasEntryOf(r, name) ensures LineShownFully(Synced(es, list), r) <==> !Stale(es, r) {
      LineIsShownFullyIff(list, rows, name, es, r);
    }
  }

  // ---- What this says of the snapshot, line by line ----

  /** Each line of the indicator is shown by an entry, each entry shows one of its lines, and an old object
      stays exactly when a line has its id and its priority. */
  lemma ReconciledTells(es: seq<Entry>, was: seq<Entry>, rows: seq<Row>, name: string)
    requires Reconciled(es, was, rows, name)
    ensures forall i, j | 0 <= i < j < |es| :: es[i].id != es[j].id
    ensures forall r | r in rows && r.indicator == name && r.entry != "" ::
              exists e | e in es ::
                e.id == r.entry && e.caption == r.caption && e.image == r.image && e.priority == r.priority
    ensures forall e | e in es ::
              exists r | r in rows ::
                && r.indicator == name && r.entry != ""
                && e.id == r.entry && e.caption == r.caption && e.image == r.image && e.priority == r.priority
                && (e !in was ==> e.nameHint == r.nameHint && e.parentWindow == r.parentWindow)
    ensures forall e | e in was ::
              e in es <==> exists r | r in rows ::
                             r.indicator == name && r.entry == e.id != "" && r.priority == e.priority
  {
    hide Ordered, LineShownFully, Stale;
    forall r | r in rows && r.indicator == name && r.entry != ""
      ensures exists e | e in es ::
                e.id == r.entry && e.caption == r.caption && e.image == r.image && e.priority == r.priority
    {
      assert HasEntryOf(r, name) && LineShown(es, r);
    }
    forall e | e in es
      ensures exists r | r in rows ::
                && r.indicator == name && r.entry != ""
                && e.id == r.entry && e.caption == r.caption && e.image == r.image && e.priority == r.priority
                && (e !in was ==> e.nameHint == r.nameHint && e.parentWindow == r.parentWindow)
    {
      assert HasLine(e, was, rows, name);
    }
  }

  /** A line is shown with its name hint and its window as well exactly when no old object with its id and its
      priority has another name hint or another window. */
  lemma HintsTell(es: seq<Entry>, was: seq<Entry>, rows: seq<Row>, name: string, r: Row)
    requires Reconciled(es, was, rows, name) && r in rows && r.indicator == name && r.entry != ""
    ensures (exists e | e in es ::
               && e.id == r.entry && e.caption == r.caption && e.image == r.image && e.priority == r.priority
               && e.nameHint == r.nameHint && e.parentWindow == r.parentWindow)
       <==> !exists e | e in was ::
               && e.id == r.entry && e.priority == r.priority
               && (e.nameHint != r.nameHint || e.parentWindow != r.parentWindow)
  {
    hide Ordered, Mirrors, Repeats;
    assert LineShownFully(es, r) <==> !Stale(was, r);
  }

  /** a is the id of an earlier line of the indicator than b. */
  ghost predicate LinesPrecede(rows: seq<Row>, name: string, a: string, b: string) {
    exists i, j | 0 <= i < j < |rows| ::
      rows[i].indicator == rows[j].indicator == name && rows[i].entry == a && rows[j].entry == b
  }

  lemma LinesPrecedeStep(rows: seq<Row>, row: Row, name: string, a: string, b: string)
    ensures LinesPrecede(rows, name, a, b) ==> LinesPrecede(rows + [row], name, a, b)
    ensures MentionsEntry(rows, name, a) && row.indicator == name ==> LinesPrecede(rows + [row], name, a, row.entry)
  {
    var all := rows + [row];
    if LinesPrecede(rows, name, a, b) {
      var i, j :| 0 <= i < j < |rows|
        && rows[i].indicator == rows[j].indicator == name && rows[i].entry == a && rows[j].entry == b;
      assert all[i] == rows[i] && all[j] == rows[j];
    }
    if MentionsEntry(rows, name, a) && row.indicator == name {
      var r :| r in rows && r.indicator == name && r.entry == a;
      var i :| 0 <= i < |rows| && rows[i] == r;
      assert all[i] == r && all[|rows|] == row;
    }
  }

  lemma NewcomersStep(rows: seq<Row>, row: Row, name: string, was: seq<Entry>)
    ensures NewcomerIds(RowsFor(rows + [row], name), was) ==
              NewcomerIds(RowsFor(rows, name), was)
              + if row.indicator == name && row.entry != "" && !Reusable(was, row) then [row.entry] else []
  {
    RowsForStep(rows, row, name);
    var lines := RowsFor(rows, name);
    assert (lines + [row])[..|lines|] == lines && lines + [] == lines;
  }

  lemma {:induction false} NewcomersInOrder(rows: seq<Row>, name: string, was: seq<Entry>)
    ensures var ids := NewcomerIds(RowsFor(rows, name), was);
            && (forall p, q | 0 <= p < q < |ids| :: LinesPrecede(rows, name, ids[p], ids[q]))
            && (forall p | 0 <= p < |ids| :: MentionsEntry(rows, name, ids[p]))
  {
    hide Reusable, LinesPrecede, MentionsEntry, RowsFor, NewcomerIds;
    if rows == [] {
      NoNewcomers(name, was);
    } else {
      var rest, last := rows[..|rows| - 1], rows[|rows| - 1];
      assert rows == rest + [last];
      NewcomersInOrder(rest, name, was);
      NewcomersStep(rest, last, name, was);
      forall a, b ensures LinesPrecede(rest, name, a, b) ==> LinesPrecede(rows, name, a, b) {
        LinesPrecedeStep(rest, last, name, a, b);
      }
      forall a
        ensures MentionsEntry(rest, name, a) && last.indicator == name ==> LinesPrecede(rows, name, a, last.entry)
      {
        LinesPrecedeStep(rest, last, name, a, a);
      }
      forall a ensures MentionsEntry(rows, name, a) <==>
                         MentionsEntry(rest, name, a) || (last.indicator == name && last.entry == a) {
        MentionsStep(rest, last, name, a);
      }
    }
  }

  lemma NoNewcomers(name: string, was: seq<Entry>)
    ensures NewcomerIds(RowsFor([], name), was) == []
  {
  }

  lemma {:induction false} SurvivingInOrder(was: seq<Entry>, rows: seq<Row>, name: string)
    ensures KeepsOrder(Surviving(was, rows, name), was)
    ensures forall e | e in Surviving(was, rows, name) :: e in was
    ensures forall e | e in was && Repeats(rows, name, e.id, e.priority) :: e in Surviving(was, rows, name)
  {
    hide Repeats, KeepsOrder;
    if was != [] {
      var rest, last := was[..|was| - 1], was[|was| - 1];
      assert was == rest + [last] && Surviving(rest, rows, name) + [] == Surviving(rest, rows, name);
      SurvivingInOrder(rest, rows, name);
      KeepsOrderStep(Surviving(rest, rows, name), rest, last);
    } else {
      assert KeepsOrder([], []) by {
        NothingToOrder();
      }
    }
  }

  lemma NothingToOrder()
    ensures KeepsOrder([], [])
  {
  }

  /** Old objects come first and keep their order; the new ones behind them come in the order of the lines. */
  lemma OrderTells(es: seq<Entry>, was: seq<Entry>, rows: seq<Row>, name: string, p: nat, q: nat)
    requires Reconciled(es, was, rows, name) && p < q < |es|
    ensures es[q] in was ==> es[p] in was && Precedes(was, es[p], es[q])
    ensures es[p] !in was ==> es[q] !in was && LinesPrecede(rows, name, es[p].id, es[q].id)
  {
    hide Mirrors, Repeats, Surviving, NewcomerIds, LinesPrecede, Precedes, LineShownFully, Stale, RowsFor;
    var kept := Surviving(was, rows, name);
    SurvivingInOrder(was, rows, name);
    if q < |kept| {
      assert es[p] == kept[p] && es[q] == kept[q] && kept[p] in kept;
    } else {
      NotKept(es, was, rows, name, q);
      if p < |kept| {
        assert es[p] == kept[p] && kept[p] in kept;
      } else {
        NotKept(es, was, rows, name, p);
        NewcomersInOrder(rows, name, was);
        var ids := Ids(es[|kept|..]);
        assert ids == NewcomerIds(RowsFor(rows, name), was);
        assert es[p].id == ids[p - |kept|] && es[q].id == ids[q - |kept|];
      }
    }
  }

  lemma NotKept(es: seq<Entry>, was: seq<Entry>, rows: seq<Row>, name: string, k: nat)
    requires Reconciled(es, was, rows, name) && |Surviving(was, rows, name)| <= k < |es|
    ensures es[k] !in was
  {
    hide Repeats, Surviving, LineShownFully, Stale;
    var kept := Surviving(was, rows, name);
    SurvivingInOrder(was, rows, name);
    assert es[k] in es;
  }

  lemma AddedEventsStep(rows: seq<Row>, row: Row, known: set<string>)
    ensures AddedEvents(rows + [row], known) ==
              AddedEvents(rows, known)
              + if row.indicator in known + Names(rows) then [] else [IndicatorAdded(row.indicator)]
    ensures known + Names(rows + [row]) == known + Names(rows) + {row.indicator}
  {
    RowsForStep(rows, row, row.indicator);
    assert (rows + [row])[..|rows|] == rows;
  }

  /** The indicator called a is mentioned before the first line of the one called b. */
  ghost predicate FirstMentionsPrecede(rows: seq<Row>, a: string, b: string) {
    exists i, j | 0 <= i < j < |rows| ::
      rows[i].indicator == a && rows[j].indicator == b && forall m | 0 <= m < j :: rows[m].indicator != b
  }

  lemma FirstMentionsStep(rows: seq<Row>, row: Row, a: string, b: string)
    ensures FirstMentionsPrecede(rows, a, b) ==> FirstMentionsPrecede(rows + [row], a, b)
    ensures a in Names(rows) && row.indicator == b && b !in Names(rows) ==> FirstMentionsPrecede(rows + [row], a, b)
  {
    var all := rows + [row];
    if FirstMentionsPrecede(rows, a, b) {
      var i, j :| 0 <= i < j < |rows|
        && rows[i].indicator == a && rows[j].indicator == b && forall m | 0 <= m < j :: rows[m].indicator != b;
      assert all[i] == rows[i] && all[j] == rows[j] && forall m | 0 <= m < j :: all[m] == rows[m];
    }
    if a in Names(rows) && row.indicator == b && b !in Names(rows) {
      var r :| r in rows && r.indicator == a;
      var i :| 0 <= i < |rows| && rows[i] == r;
      assert all[i] == r && all[|rows|] == row && forall m | 0 <= m < |rows| :: all[m] == rows[m] && rows[m] in rows;
    }
  }

  /** Exactly the mentioned indicators that are not known yet are announced, each once, in the order in which
      they are first mentioned. */
  lemma {:induction false} AddedEventsTell(rows: seq<Row>, known: set<string>)
    ensures forall x :: x in AddedEvents(rows, known) <==> x.IndicatorAdded? && x.name in Names(rows) && x.name !in known
    ensures forall p, q | 0 <= p < q < |AddedEvents(rows, known)| ::
              FirstMentionsPrecede(rows, AddedEvents(rows, known)[p].name, AddedEvents(rows, known)[q].name)
  {
    hide FirstMentionsPrecede, Names, AddedEvents;
    if rows == [] {
      NothingAdded(known);
    } else {
      var rest, last := rows[..|rows| - 1], rows[|rows| - 1];
      assert rows == rest + [last];
      AddedEventsTell(rest, known);
      AddedEventsStep(rest, last, known);
      RowsForStep(rest, last, "");
      var added := AddedEvents(rest, known);
      forall a, b ensures FirstMentionsPrecede(rest, a, b) ==> FirstMentionsPrecede(rows, a, b) {
        FirstMentionsStep(rest, last, a, b);
      }
      forall p | 0 <= p < |added| && last.indicator !in Names(rest)
        ensures FirstMentionsPrecede(rows, added[p].name, last.indicator)
      {
        assert added[p] in added;
        FirstMentionsStep(rest, last, added[p].name, last.indicator);
      }
    }
  }

  lemma NothingAdded(known: set<string>)
    ensures Names([]) == {} && AddedEvents([], known) == []
  {
  }

  lemma NoRowsYet(before: Lists)
    ensures Names([]) == {} && AddedEvents([], before.Keys) == [] && Apart(before, map[])
  {
  }

  lemma DistinctPrefix(rows: seq<Row>, k: nat)
    requires DistinctRows(rows) && k <= |rows|
    ensures DistinctRows(rows[..k])
  {
  }

  lemma {:induction false} RowsForMembers(rows: seq<Row>, name: string)
    ensures forall r | r in RowsFor(rows, name) :: r in rows && r.indicator == name && r.entry != ""
    ensures forall r | r in rows && r.indicator == name && r.entry != "" :: r in RowsFor(rows, name)
    ensures name !in Names(rows) ==> RowsFor(rows, name) == []
  {
    if rows != [] {
      RowsForMembers(rows[..|rows| - 1], name);
      assert rows == rows[..|rows| - 1] + [rows[|rows| - 1]];
    }
  }

  lemma RowsForApart(rows: seq<Row>, row: Row, name: string, j: nat)
    requires DistinctRows(rows + [row]) && j < |RowsFor(rows, name)|
    ensures name == row.indicator ==> RowsFor(rows, name)[j].entry != row.entry
  {
    RowsForMembers(rows, name);
    var r := RowsFor(rows, name)[j];
    assert r in RowsFor(rows, name);
    var i :| 0 <= i < |rows| && rows[i] == r;
    assert (rows + [row])[i] == r && (rows + [row])[|rows|] == row;
  }

  lemma RowsForStep(rows: seq<Row>, row: Row, name: string)
    ensures RowsFor(rows + [row], name) ==
              RowsFor(rows, name) + if row.indicator == name && row.entry != "" then [row] else []
    ensures Names(rows + [row]) == Names(rows) + {row.indicator}
  {
    assert (rows + [row])[..|rows|] == rows;
    assert row in rows + [row];
    forall n | n in Names(rows) ensures n in Names(rows + [row]) {
      var r :| r in rows && r.indicator == n;
      assert r in rows + [row];
    }
  }

  /** The comparison of a report with the cache. The lookups insert the default rectangle for every
      reported id the cache does not know. */
  method Compare(before: Locations, locations: Locations, dflt: Rect) returns (delta: seq<Change>, cached: Locations)
    ensures IsDelta(delta, before, locations, dflt)
    ensures delta == [] ==> cached == locations
  {
    delta, cached := [], before;
    var todo := locations.Keys;
    while todo != {}
      invariant todo <= locations.Keys
      invariant cached.Keys == before.Keys + (locations.Keys - todo)
      invariant forall id | id in cached :: cached[id] == ReadAt(before, id, dflt)
      invariant forall i, j | 0 <= i < j < |delta| :: delta[i].id != delta[j].id
      invariant forall c :: c in delta <==> c.id in locations && c.id !in todo && Needed(c, before, locations, dflt)
      decreases todo
    {
      var id :| id in todo;
      var rect := locations[id];
      if id !in cached {
        cached := cached[id := dflt];
      }
      if cached[id] != rect {
        delta := delta + [Change(id, rect)];
      }
      todo := todo - {id};
    }

    todo := cached.Keys;
    while todo != {}
      invariant todo <= cached.Keys
      invariant forall i, j | 0 <= i < j < |delta| :: delta[i].id != delta[j].id
      invariant forall c :: c in delta <==> (c.id in locations || c.id !in todo) && Needed(c, before, locations, dflt)
      decreases todo
    {
      var id :| id in todo;
      if id !in locations {
        delta := delta + [Change(id, REMOVAL)];
      }
      todo := todo - {id};
    }
    if delta == [] {
      forall id | id in locations ensures id in cached && cached[id] == locations[id] {
        assert !Needed(Change(id, locations[id]), before, locations, dflt);
      }
      forall id | id in before ensures id in locations {
        assert !Needed(Change(id, REMOVAL), before, locations, dflt);
      }
    }
  }

  class DBusIndicators {
    const defaultRect: Rect
    var indicators: map<string, Indicator>
    var connected: bool
    var cachedLocations: map<string, Locations>
    ghost var remoteLocations: map<string, Locations>            // what the service has been told
    ghost var reports: seq<(string, seq<Change>)>                // the SyncGeometries calls made
    ghost var announced: seq<OwnerEvent>                         // the signals about whole indicators

    ghost predicate Valid()
      reads `indicators, indicators.Values`entries, indicators.Values`connected, indicators.Values`windowEntries
    {
      && (forall n | n in indicators :: indicators[n].name == n && indicators[n].Valid())
      && (forall n | n in indicators :: indicators[n].isAppmenu == (n == APPMENU_INDICATOR_NAME))
      && (forall m, n, e | m in indicators && n in indicators
                           && e in indicators[m].entries && e in indicators[n].entries :: m == n)
    }

    /** The state that the run theorem of the delta protocol is about. */
    ghost function Now(): World
      reads `connected, `cachedLocations, `remoteLocations
    {
      World(connected, cachedLocations, remoteLocations)
    }

    ghost predicate ServiceCoherent()
      reads `cachedLocations, `remoteLocations
    {
      AllCoherent(remoteLocations, cachedLocations, defaultRect)
    }

    constructor (defaultRect: Rect)
      ensures Valid() && ServiceCoherent() && indicators == map[] && reports == [] && announced == []
      ensures Now() == World(false, map[], map[])
      ensures this.defaultRect == defaultRect
    {
      this.defaultRect := defaultRect;
      indicators, connected, cachedLocations, remoteLocations := map[], false, map[], map[];
      reports, announced := [], [];
    }

    method SyncGeometries(name: string, locations: Locations)
      requires ServiceCoherent()
      modifies `cachedLocations, `remoteLocations, `reports
      ensures ServiceCoherent()
      ensures LocationDelta.Step(old(Now()), Reported(name, locations), Now(), defaultRect)
      ensures !connected || name == "" ==>
                && cachedLocations == old(cachedLocations) && reports == old(reports)
                && remoteLocations == old(remoteLocations)
      ensures connected && name != "" ==>
                && cachedLocations == old(cachedLocations)[name := locations]
                && exists delta ::
                     && IsDelta(delta, Panel(old(cachedLocations), name), locations, defaultRect)
                     && reports == old(reports) + (if delta == [] then [] else [(name, delta)])
                     && remoteLocations == old(remoteLocations)[name := Apply(Panel(old(remoteLocations), name), delta)]
    {
      if !connected || name == "" {
        return;
      }
      var delta, cached := Compare(Panel(cachedLocations, name), locations, defaultRect);
      ReportKeepsAllCoherent(remoteLocations, cachedLocations, name, delta, locations, defaultRect);
      remoteLocations := remoteLocations[name := Apply(Panel(remoteLocations, name), delta)];
      assert ReportStep(old(Now()), name, locations, delta,
                        World(connected, cachedLocations[name := locations], remoteLocations), defaultRect);
      if delta == [] {
        // Nothing differs, so the inserted defaults have made the cache equal to the report.
        cachedLocations := cachedLocations[name := cached];
        return;
      }
      reports := reports + [(name, delta)];
      cachedLocations := cachedLocations[name := locations];
    }

    method OnConnected()
      modifies `connected
      ensures LocationDelta.Step(old(Now()), Connected, Now(), defaultRect)
    {
      connected := true;
    }

    // The service is gone: every indicator is dropped and both sides start from nothing.
    method OnDisconnected()
      requires Valid()
      modifies `indicators, `connected, `cachedLocations, `remoteLocations, `announced
      ensures Valid() && ServiceCoherent() && indicators == map[]
      ensures LocationDelta.Step(old(Now()), Disconnected, Now(), defaultRect)
      ensures exists names: seq<string> ::
                && announced == old(announced) + RemovedEvents(names)
                && (forall i, j | 0 <= i < j < |names| :: names[i] != names[j])
                && (forall n :: n in names <==> n in old(indicators))
    {
      hide Valid;
      connected := false;
      var todo := indicators.Keys;
      ghost var names: seq<string> := [];
      while todo != {}
        invariant todo == indicators.Keys && Valid() && !connected
        invariant announced == old(announced) + RemovedEvents(names)
        invariant forall i, j | 0 <= i < j < |names| :: names[i] != names[j]
        invariant forall n :: n in names <==> n in old(indicators) && n !in todo
        decreases todo
      {
        var name :| name in todo;
        NameIsKey(name);
        RemoveIndicator(indicators[name].name);
        names := names + [name];
        todo := todo - {name};
      }
      cachedLocations, remoteLocations := map[], map[];
    }

    lemma NameIsKey(n: string)
      requires Valid() && n in indicators
      ensures indicators[n].name == n
    {
    }

    method AddIndicator(name: string) returns (indicator: Indicator)
      requires Valid()
      modifies `indicators, `announced
      ensures Valid() && name in indicators && indicator == indicators[name]
      ensures indicator.isAppmenu <==> name == "libappmenu.so"
      ensures name in old(indicators) ==> indicators == old(indicators) && announced == old(announced)
      ensures name !in old(indicators) ==>
                && fresh(indicator) && indicator.entries == [] && indicator.events == []
                && indicators == old(indicators)[name := indicator]
                && announced == old(announced) + [IndicatorAdded(name)]
    {
      if name in indicators {
        return indicators[name];
      }
      indicator := new Indicator(name, name == APPMENU_INDICATOR_NAME);
      indicators := indicators[name := indicator];
      announced := announced + [IndicatorAdded(name)];
    }

    method RemoveIndicator(name: string)
      requires Valid()
      modifies `indicators, `announced
      ensures Valid() && indicators == old(indicators) - {name}
      ensures announced == old(announced) + if name in old(indicators) then [IndicatorRemoved(name)] else []
    {
      if name in indicators {
        announced := announced + [IndicatorRemoved(name)];
        indicators := indicators - {name};
      }
    }

    ghost function EventLists(): Traces
      reads `indicators, indicators.Values`events
    {
      map n | n in indicators :: indicators[n].events
    }

    ghost function Pictures(): Snapshots
      reads `indicators, indicators.Values`entries, indicators.Values`connected, indicators.Values`windowEntries
      reads Objects(EntryLists())`caption, Objects(EntryLists())`image
      reads Objects(EntryLists())`priority, Objects(EntryLists())`signals
    {
      map e | e in Objects(EntryLists()) :: Snapshot(e.caption, e.image, e.priority, e.signals)
    }

    ghost function EntryLists(): Lists
      reads `indicators, indicators.Values`entries, indicators.Values`connected, indicators.Values`windowEntries
    {
      map n | n in indicators :: indicators[n].entries
    }

    // A reused object takes over the label and the image of the line.
    static method Refresh(entry: Entry, row: Row)
      requires entry.id == row.entry
      modifies entry`caption, entry`image, entry`priority, entry`signals
      ensures Shows(entry, row)
      ensures old(entry.priority) == row.priority ==>
                entry.signals == old(entry.signals)
                                 + Updates(entry.caption != old(entry.caption), entry.image != old(entry.image))
    {
      entry.SetLabel(row.caption);
      entry.SetImage(row.image);
      entry.SetPriority(row.priority);
    }

    // The object for one line: an old one with the same priority, or else a new one.
    method EntryFor(row: Row, indicator: Indicator) returns (entry: Entry)
      requires indicator.Valid() && row.entry != ""
      modifies indicator.entries`caption, indicator.entries`image, indicator.entries`priority, indicator.entries`signals
      ensures Shows(entry, row)
      ensures entry in indicator.entries <==> Reusable(indicator.entries, row)
      ensures entry !in indicator.entries ==>
                fresh(entry) && entry.nameHint == row.nameHint && entry.parentWindow == row.parentWindow
      ensures forall x | x in indicator.entries ::
                && x.priority == old(x.priority)
                && x.signals == old(x.signals) + Updates(x.caption != old(x.caption), x.image != old(x.image))
                && (x != entry ==> x.caption == old(x.caption) && x.image == old(x.image))
    {
      assert Updates(false, false) == [];
      hide Updates, Indexes, Elements;
      var e := indicator.GetEntry(row.entry);
      assert forall x | x in indicator.entries && x.id == row.entry :: x == e by {
        forall x | x in indicator.entries && x.id == row.entry ensures x == e {
          SameEntry(indicator.entries, x, e);
        }
      }
      var oldPriority := if e != null then e.priority else -1;
      // An entry is placed by its priority, so a new priority takes a new object.
      if oldPriority != row.priority {
        e := null;
      }
      if e == null {
        entry := new Entry(row.entry, row.nameHint, row.parentWindow, row.caption, row.image, row.priority, defaultRect);
      } else {
        entry := e;
        Refresh(entry, row);
      }
    }

    // Appends the object for one line to the list of its indicator.
    method Append(row: Row, indicator: Indicator, list: seq<Entry>, ghost done: seq<Row>) returns (list': seq<Entry>)
      requires DistinctRows(done + [row]) && indicator.Valid()
      requires Collects(list, RowsFor(done, row.indicator), indicator.entries)
      modifies indicator.entries`caption, indicator.entries`image, indicator.entries`priority, indicator.entries`signals
      ensures Collects(list', RowsFor(done + [row], row.indicator), indicator.entries)
      ensures forall e | e in list' :: e in list || e in indicator.entries || fresh(e)
      ensures forall e | e in indicator.entries ::
                && e.priority == old(e.priority)
                && e.signals == old(e.signals) + Updates(e.caption != old(e.caption), e.image != old(e.image))
                && (e.id != row.entry || row.entry == "" ==> e.caption == old(e.caption) && e.image == old(e.image))
    {
      hide DistinctIds, Indexes, HasId, RowsFor, Elements;
      ghost var lines := RowsFor(done, row.indicator);
      RowsForStep(done, row, row.indicator);
      if row.entry == "" {
        return list;
      }
      var e := EntryFor(row, indicator);
      assert Collects(list, lines, indicator.entries) by {
        forall j | 0 <= j < |list| ensures Shows(list[j], lines[j]) {
          RowsForApart(done, row, row.indicator, j);
        }
      }
      CollectsAppend(list, lines, indicator.entries, e, row);
      list' := list + [e];
    }

    // Takes one line of the snapshot into the lists under construction.
    method Gather(row: Row, indicator: Indicator, built: Lists, ghost done: seq<Row>, ghost before: Lists)
      returns (built': Lists)
      requires built.Keys == Names(done) && Apart(before, built) && DistinctRows(done + [row])
      requires forall n | n in built :: Collects(built[n], RowsFor(done, n), At(before, n))
      requires indicator.Valid() && indicator.entries == At(before, row.indicator)
      requires forall n, e | n in before && e in before[n] && e in indicator.entries :: n == row.indicator
      modifies indicator.entries`caption, indicator.entries`image, indicator.entries`priority, indicator.entries`signals
      ensures built'.Keys == Names(done + [row]) && Apart(before, built')
      ensures forall n | n in built' :: Collects(built'[n], RowsFor(done + [row], n), At(before, n))
      ensures forall e | e in indicator.entries ::
                && e.priority == old(e.priority)
                && e.signals == old(e.signals) + Updates(e.caption != old(e.caption), e.image != old(e.image))
                && (e.id != row.entry || row.entry == "" ==> e.caption == old(e.caption) && e.image == old(e.image))
    {
      hide DistinctIds, Indexes, HasId, RowsFor, Names, Elements, Apart, Updates;
      var name := row.indicator;
      RowsForMembers(done, name);
      CollectsNothing(indicator.entries);
      var list := Append(row, indicator, At(built, name), done);
      built' := built[name := list];
      RowsForStep(done, row, name);
      ApartGrow(before, built, name, list);
      forall n | n in built' && n != name ensures Collects(built'[n], RowsFor(done + [row], n), At(before, n)) {
        RowsForStep(done, row, n);
        ApartLists(before, built, name, n);
        assert old(Collects(built[n], RowsFor(done, n), At(before, n)));
        forall j | 0 <= j < |built[n]| ensures Shows(built[n][j], RowsFor(done, n)[j]) {
          assert built[n][j] in built[n];
        }
      }
    }

    /** The indicators carry the lists `before` and have emitted `heard`, new ones being empty. */
    ghost predicate Carries(before: Lists, heard: Traces)
      reads `indicators, indicators.Values`entries, indicators.Values`connected, indicators.Values`windowEntries
      reads indicators.Values`events
    {
      && Valid()
      && before.Keys <= indicators.Keys && heard.Keys <= indicators.Keys
      && (forall n | n in indicators :: indicators[n].entries == At(before, n))
      && (forall n | n in indicators :: indicators[n].events == Heard(heard, n))
    }

    lemma CarriesItself()
      requires Valid()
      ensures Carries(EntryLists(), EventLists())
    {
    }

    // The same, keeping track of the old objects.
    method GatherTracked(row: Row, indicator: Indicator, built: Lists, ghost done: seq<Row>, ghost before: Lists,
                         ghost was: Snapshots)
      returns (built': Lists)
      requires built.Keys == Names(done) && Apart(before, built) && DistinctRows(done + [row])
      requires forall n | n in built :: Collects(built[n], RowsFor(done, n), At(before, n))
      requires indicator.Valid() && indicator.entries == At(before, row.indicator)
      requires forall n, e | n in before && e in before[n] && e in indicator.entries :: n == row.indicator
      requires Follows(before, was, done)
      modifies indicator.entries`caption, indicator.entries`image, indicator.entries`priority, indicator.entries`signals
      ensures built'.Keys == Names(done + [row]) && Apart(before, built')
      ensures forall n | n in built' :: Collects(built'[n], RowsFor(done + [row], n), At(before, n))
      ensures Follows(before, was, done + [row])
    {
      hide DistinctIds, Indexes, HasId, RowsFor, Names, Elements, Apart, Collects, MentionsEntry, DistinctRows;
      built' := Gather(row, indicator, built, done, before);
      forall n, e | n in before && e in before[n]
        ensures Tracked(e, was[e]) && (!MentionsEntry(done + [row], n, e.id) ==> SameLooks(e, was[e]))
      {
        MentionsStep(done, row, n, e.id);
        if e in indicator.entries && row.entry != "" {
          NotYetMentioned(done, row);
        }
      }
    }

    // The indicator of a line, which is made when it is mentioned for the first time.
    method Announce(name: string, ghost before: Lists, ghost heard: Traces) returns (indicator: Indicator)
      requires Carries(before, heard)
      modifies `indicators, `announced
      ensures Carries(before, heard) && name in indicators && indicator == indicators[name]
      ensures indicator.Valid() && indicator.entries == At(before, name)
      ensures forall n, e | n in before && e in before[n] && e in indicator.entries :: n == name
      ensures indicators.Keys == old(indicators.Keys) + {name}
      ensures announced == old(announced) + if name in old(indicators) then [] else [IndicatorAdded(name)]
      ensures forall n | n in old(indicators) :: n in indicators && indicators[n] == old(indicators[n])
      ensures forall n | n in indicators && n !in old(indicators) :: fresh(indicators[n])
    {
      hide DistinctIds, Indexes, HasId, Elements;
      indicator := AddIndicator(name);
    }

    method TakeRow(row: Row, built: Lists, ghost done: seq<Row>, ghost before: Lists, ghost was: Snapshots,
                   ghost heard: Traces, ghost base: seq<OwnerEvent>)
      returns (built': Lists)
      requires indicators.Keys == before.Keys + Names(done)
      requires announced == base + AddedEvents(done, before.Keys)
      requires Carries(before, heard) && DistinctRows(done + [row]) && Follows(before, was, done)
      requires built.Keys == Names(done) && Apart(before, built)
      requires forall n | n in built :: Collects(built[n], RowsFor(done, n), At(before, n))
      modifies `indicators, `announced
      modifies At(before, row.indicator)`caption, At(before, row.indicator)`image
      modifies At(before, row.indicator)`priority, At(before, row.indicator)`signals
      ensures Carries(before, heard) && Follows(before, was, done + [row])
      ensures built'.Keys == Names(done + [row]) && Apart(before, built')
      ensures forall n | n in built' :: Collects(built'[n], RowsFor(done + [row], n), At(before, n))
      ensures indicators.Keys == before.Keys + Names(done + [row])
      ensures announced == base + AddedEvents(done + [row], before.Keys)
      ensures forall n | n in old(indicators) :: n in indicators && indicators[n] == old(indicators[n])
      ensures forall n | n in indicators && n !in old(indicators) :: fresh(indicators[n])
    {
      hide RowsFor, DistinctIds, Indexes, HasId, DistinctRows, Elements, Apart, Names, Collects, Objects, Tracked;
      hide MentionsEntry, Carries, AddedEvents;
      AddedEventsStep(done, row, before.Keys);
      var indicator := Announce(row.indicator, before, heard);
      built' := GatherTracked(row, indicator, built, done, before, was);
    }

    // First half of a snapshot: objects are reused or made, but no indicator's list changes yet.
    method GatherAll(rows: seq<Row>, ghost before: Lists, ghost was: Snapshots, ghost heard: Traces)
      returns (built: Lists)
      requires Carries(before, heard) && before.Keys == indicators.Keys
      requires DistinctRows(rows) && Follows(before, was, [])
      modifies `indicators, `announced
      modifies Mentioned(rows, before)`caption, Mentioned(rows, before)`image
      modifies Mentioned(rows, before)`priority, Mentioned(rows, before)`signals
      ensures Carries(before, heard) && Follows(before, was, rows)
      ensures built.Keys == Names(rows) && Apart(before, built)
      ensures forall n | n in built :: Collects(built[n], RowsFor(rows, n), At(before, n))
      ensures indicators.Keys == before.Keys + Names(rows)
      ensures announced == old(announced) + AddedEvents(rows, before.Keys)
      ensures forall n | n in old(indicators) :: n in indicators && indicators[n] == old(indicators[n])
      ensures forall n | n in indicators && n !in old(indicators) :: fresh(indicators[n])
    {
      hide Collects, RowsFor, DistinctIds, Indexes, HasId, Carries, Elements, Names, DistinctRows;
      hide Objects, Apart, AddedEvents, Follows, Mentioned, At, Valid;
      built := map[];
      ghost var done: seq<Row> := [];
      NoRowsYet(before);
      for i := 0 to |rows|
        invariant done == rows[..i]
        invariant Carries(before, heard) && Follows(before, was, done)
        invariant built.Keys == Names(done) && Apart(before, built)
        invariant forall n | n in built :: Collects(built[n], RowsFor(done, n), At(before, n))
        invariant indicators.Keys == before.Keys + Names(done)
        invariant announced == old(announced) + AddedEvents(done, before.Keys)
        invariant forall n | n in old(indicators) :: n in indicators && indicators[n] == old(indicators[n])
        invariant forall n | n in indicators && n !in old(indicators) :: fresh(indicators[n])
      {
        assert done + [rows[i]] == rows[..i + 1];
        DistinctPrefix(rows, i + 1);
        AtMentioned(rows, before, i);
        built := TakeRow(rows[i], built, done, before, was, heard, old(announced));
        done := done + [rows[i]];
      }
      assert rows[..|rows|] == rows;
    }

    static method SyncOne(indicator: Indicator, list: seq<Entry>, ghost was: seq<Entry>, ghost heard: seq<Event>)
      requires IsReady(indicator, indicator.name, was, heard)
      modifies indicator`entries, indicator`connected, indicator`windowEntries, indicator`events
      ensures IsSynced(indicator, indicator.name, was, Synced(was, list), heard)
    {
      hide DistinctIds, Indexes, Elements, Kept, Dropped, Joining, OfWindow, WindowEvents, Removals, Additions;
      indicator.Sync(list);
      TraceOfSync(heard, indicator.events, was, list, indicator.isAppmenu);
    }

    // The same, the old objects staying as they are.
    static method SyncTracked(ghost rows: seq<Row>, indicator: Indicator, list: seq<Entry>, ghost before: Lists,
                              ghost was: Snapshots, ghost heard: seq<Event>)
      requires IsReady(indicator, indicator.name, At(before, indicator.name), heard) && Follows(before, was, rows)
      modifies indicator`entries, indicator`connected, indicator`windowEntries, indicator`events
      ensures IsSynced(indicator, indicator.name, At(before, indicator.name),
                       Synced(At(before, indicator.name), list), heard)
      ensures Follows(before, was, rows)
    {
      hide IsReady, IsSynced, Synced, MentionsEntry, Objects;
      SyncOne(indicator, list, At(before, indicator.name), heard);
    }

    // Every indicator with a collected list synchronises to it, in whatever order.
    method SyncEach(ghost rows: seq<Row>, built: Lists, ghost before: Lists, ghost was: Snapshots, ghost heard: Traces)
      requires Follows(before, was, rows)
      requires built.Keys <= indicators.Keys
      requires forall n | n in indicators :: IsReady(indicators[n], n, At(before, n), Heard(heard, n))
      modifies indicators.Values`entries, indicators.Values`connected
      modifies indicators.Values`windowEntries, indicators.Values`events
      ensures Follows(before, was, rows)
      ensures forall n | n in built ::
                IsSynced(indicators[n], n, At(before, n), Synced(At(before, n), built[n]), Heard(heard, n))
      ensures forall n | n in indicators && n !in built :: IsReady(indicators[n], n, At(before, n), Heard(heard, n))
    {
      hide Synced, Traced, DistinctIds, HasId, Indexes, Elements, At, Heard, Follows;
      var todo := built.Keys;
      while todo != {}
        invariant todo <= built.Keys && Follows(before, was, rows)
        invariant forall n | n in indicators && (n in todo || n !in built) ::
                    IsReady(indicators[n], n, At(before, n), Heard(heard, n))
        invariant forall n | n in built && n !in todo ::
                    IsSynced(indicators[n], n, At(before, n), Synced(At(before, n), built[n]), Heard(heard, n))
        decreases todo
      {
        var name :| name in todo;
        assert IsReady(indicators[name], name, At(before, name), Heard(heard, name));
        SyncTracked(rows, indicators[name], built[name], before, was, Heard(heard, name));
        todo := todo - {name};
      }
    }

    // Second half of a snapshot.
    method SyncLists(ghost rows: seq<Row>, built: Lists, ghost before: Lists, ghost was: Snapshots, ghost heard: Traces)
      requires Carries(before, heard) && built.Keys <= indicators.Keys && Apart(before, built)
      requires Follows(before, was, rows)
      modifies indicators.Values`entries, indicators.Values`connected
      modifies indicators.Values`windowEntries, indicators.Values`events
      ensures Valid() && Follows(before, was, rows)
      ensures forall n | n in built ::
                && indicators[n].entries == Synced(At(before, n), built[n])
                && Traced(Heard(heard, n), indicators[n].events, At(before, n), indicators[n].entries,
                          indicators[n].isAppmenu)
      ensures forall n | n in indicators && n !in built ::
                indicators[n].entries == At(before, n) && indicators[n].events == Heard(heard, n)
    {
      hide DistinctIds, HasId, Indexes, Elements, Apart, Synced, Traced, Follows;
      OutcomeApart(before, built);
      SyncEach(rows, built, before, was, heard);
      assert forall n | n in built ::
               IsSynced(indicators[n], n, At(before, n), Synced(At(before, n), built[n]), Heard(heard, n));
      assert forall n | n in indicators && n !in built :: IsReady(indicators[n], n, At(before, n), Heard(heard, n));
      assert forall n | n in indicators :: indicators[n].entries == Outcome(before, built, n);
    }

    method SyncAll(ghost rows: seq<Row>, built: Lists, ghost before: Lists, ghost was: Snapshots, ghost heard: Traces)
      requires Carries(before, heard) && built.Keys == Names(rows) <= indicators.Keys
      requires Apart(before, built) && DistinctRows(rows) && Follows(before, was, rows)
      requires forall n | n in built :: Collects(built[n], RowsFor(rows, n), At(before, n))
      modifies indicators.Values`entries, indicators.Values`connected
      modifies indicators.Values`windowEntries, indicators.Values`events
      ensures Valid() && Follows(before, was, rows)
      ensures forall n | n in Names(rows) ::
                && Reconciled(indicators[n].entries, At(before, n), rows, n)
                && Traced(Heard(heard, n), indicators[n].events, At(before, n), indicators[n].entries,
                          indicators[n].isAppmenu)
      ensures forall n | n in indicators && n !in Names(rows) ::
                indicators[n].entries == At(before, n) && indicators[n].events == Heard(heard, n)
    {
      hide Names, RowsFor, Apart, DistinctRows, Indexes, HasId, Synced, Elements, Reconciled, Collects, Traced, Follows;
      assert forall n | n in indicators :: DistinctIds(At(before, n));
      SyncLists(rows, built, before, was, heard);
      forall n | n in Names(rows) ensures Reconciled(indicators[n].entries, At(before, n), rows, n) {
        OutcomeReconciled(built[n], rows, n, At(before, n));
      }
    }

    lemma UnmentionedApart(rows: seq<Row>, n: string)
      requires Valid() && n in indicators && n !in Names(rows)
      ensures forall e | e in indicators[n].entries :: e !in Mentioned(rows, EntryLists())
    {
    }

    // Both halves, with what there was at the start given.
    method SyncFrom(rows: seq<Row>, ghost before: Lists, ghost was: Snapshots, ghost heard: Traces)
      requires Carries(before, heard) && before.Keys == indicators.Keys
      requires DistinctRows(rows) && Follows(before, was, [])
      modifies `indicators, `announced, indicators.Values`entries, indicators.Values`connected
      modifies indicators.Values`windowEntries, indicators.Values`events
      modifies Mentioned(rows, before)`caption, Mentioned(rows, before)`image
      modifies Mentioned(rows, before)`priority, Mentioned(rows, before)`signals
      ensures Valid() && Follows(before, was, rows)
      ensures indicators.Keys == before.Keys + Names(rows)
      ensures announced == old(announced) + AddedEvents(rows, before.Keys)
      ensures forall n | n in old(indicators) :: n in indicators && indicators[n] == old(indicators[n])
      ensures forall n | n in Names(rows) ::
                && Reconciled(indicators[n].entries, At(before, n), rows, n)
                && Traced(Heard(heard, n), indicators[n].events, At(before, n), indicators[n].entries,
                          indicators[n].isAppmenu)
      ensures forall n | n in before && n !in Names(rows) ::
                indicators[n].entries == At(before, n) && indicators[n].events == Heard(heard, n)
    {
      hide Names, DistinctRows, DistinctIds, HasId, Indexes, Elements, Reconciled, Objects, Mentioned, Carries, Collects;
      hide AddedEvents, RowsFor, Apart, Valid, Traced, At, Heard, Follows;
      var built := GatherAll(rows, before, was, heard);
      SyncAll(rows, built, before, was, heard);
    }

    /** A snapshot whose entry ids are distinct within each indicator. */
    method Sync(rows: seq<Row>)
      requires Valid() && DistinctRows(rows)
      modifies `indicators, `announced, indicators.Values`entries, indicators.Values`connected
      modifies indicators.Values`windowEntries, indicators.Values`events
      modifies Mentioned(rows, EntryLists())`caption, Mentioned(rows, EntryLists())`image
      modifies Mentioned(rows, EntryLists())`priority, Mentioned(rows, EntryLists())`signals
      ensures Valid()
      ensures indicators.Keys == old(indicators.Keys) + Names(rows)
      ensures announced == old(announced) + AddedEvents(rows, old(indicators.Keys))
      ensures forall n | n in old(indicators) :: indicators[n] == old(indicators[n])
      // Old entries keep their priority, emit one update for each of label and image that changes, and look
      // the same when no line has their id.
      ensures Follows(old(EntryLists()), old(Pictures()), rows)
      // Mentioned indicators hold exactly what the snapshot makes of their old lists, and emit exactly the
      // signals of that change.
      ensures forall n | n in Names(rows) ::
                && Reconciled(indicators[n].entries, At(old(EntryLists()), n), rows, n)
                && Traced(Heard(old(EventLists()), n), indicators[n].events, At(old(EntryLists()), n),
                          indicators[n].entries, n == "libappmenu.so")
      // Indicators that are not mentioned, and their entries, are untouched.
      ensures forall n | n in old(indicators) && n !in Names(rows) ::
                indicators[n].entries == old(indicators[n].entries) && indicators[n].events == old(indicators[n].events)
      ensures forall n, e | n in old(indicators) && n !in Names(rows) && e in old(indicators[n].entries) ::
                && e.caption == old(e.caption) && e.image == old(e.image)
                && e.priority == old(e.priority) && e.signals == old(e.signals)
    {
      hide Names, DistinctRows, DistinctIds, HasId, Indexes, Elements, Reconciled, Mentioned, Carries;
      hide AddedEvents, RowsFor, Traced, MentionsEntry, Follows, Objects;
      ghost var before := EntryLists();
      CarriesItself();
      StartsTracked();
      forall n | n in indicators && n !in Names(rows)
        ensures forall e | e in indicators[n].entries :: e !in Mentioned(rows, before)
      {
        UnmentionedApart(rows, n);
      }
      SyncFrom(rows, before, Pictures(), EventLists());
    }

    lemma StartsTracked()
      ensures Follows(EntryLists(), Pictures(), [])
    {
      forall e | e in Objects(EntryLists()) ensures e.signals + [] == e.signals {
      }
    }
  }
}
