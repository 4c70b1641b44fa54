/** The panel tells the remote panel service where its entries are drawn by sending only what changed
    since the last report (UnityCore/DBusIndicators.cpp, the receiving side in
    services/panel-service.c). This module relates the two sides over whole runs. */
module LocationDelta {
  import opened IndicatorEntry

  type Locations = map<string, Rect>

  datatype Change = Change(id: string, rect: Rect)

  const REMOVAL := Rect(0, 0, -1, -1)

  /** The service treats a negative size as "this entry is gone". */
  predicate IsReal(r: Rect) {
    r.width >= 0 && r.height >= 0
  }

  /** An id that has no rectangle reads as the default rectangle. */
  function ReadAt(m: Locations, id: string, dflt: Rect): Rect {
    if id in m then m[id] else dflt
  }

  function ApplyOne(remote: Locations, c: Change): Locations {
    if IsReal(c.rect) then remote[c.id := c.rect] else remote - {c.id}
  }

  function Apply(remote: Locations, delta: seq<Change>): Locations {
    if delta == [] then remote else ApplyOne(Apply(remote, delta[..|delta| - 1]), delta[|delta| - 1])
  }

  /** delta is what has to be sent, each id at most once, in whatever order the hash tables yield. */
  ghost predicate IsDelta(delta: seq<Change>, cached: Locations, locations: Locations, dflt: Rect) {
    && (forall i, j | 0 <= i < j < |delta| :: delta[i].id != delta[j].id)
    && (forall c :: c in delta <==> Needed(c, cached, locations, dflt))
  }

  predicate Needed(c: Change, cached: Locations, locations: Locations, dflt: Rect) {
    if c.id in locations then
      ReadAt(cached, c.id, dflt) != locations[c.id] && c.rect == locations[c.id]
    else
      c.id in cached && c.rect == REMOVAL
  }

  /** What the service can hold for a rectangle: a rectangle of negative size leaves nothing behind. */
  function Shown(r: Rect, dflt: Rect): Rect {
    if IsReal(r) then r else dflt
  }

  ghost predicate Coherent(remote: Locations, cached: Locations, dflt: Rect) {
    forall id :: ReadAt(remote, id, dflt) == Shown(ReadAt(cached, id, dflt), dflt)
  }

  lemma ApplyOneReads(remote: Locations, c: Change, id: string, dflt: Rect)
    ensures ReadAt(ApplyOne(remote, c), id, dflt) ==
              if c.id != id then ReadAt(remote, id, dflt)
              else if c.rect.width >= 0 && c.rect.height >= 0 then c.rect else dflt
  {
  }

  lemma {:induction false} ApplyReads(remote: Locations, delta: seq<Change>, id: string, dflt: Rect)
    requires forall i, j | 0 <= i < j < |delta| :: delta[i].id != delta[j].id
    ensures (forall c | c in delta :: c.id != id) ==> ReadAt(Apply(remote, delta), id, dflt) == ReadAt(remote, id, dflt)
    ensures forall c | c in delta && c.id == id ::
              ReadAt(Apply(remote, delta), id, dflt) == if c.rect.width >= 0 && c.rect.height >= 0 then c.rect else dflt
  {
    hide ApplyOne, ReadAt, IsReal;
    if delta != [] {
      var rest, last := delta[..|delta| - 1], delta[|delta| - 1];
      assert delta == rest + [last];
      ApplyReads(remote, rest, id, dflt);
      ApplyOneReads(Apply(remote, rest), last, id, dflt);
      assert last.id == id ==> forall c | c in rest :: c.id != id;
    }
  }

  /** Applying any delta to a service that agreed with the cache makes it agree with the new report. */
  lemma DeltaKeepsCoherence(remote: Locations, delta: seq<Change>, cached: Locations, locations: Locations, dflt: Rect)
    requires Coherent(remote, cached, dflt) && IsDelta(delta, cached, locations, dflt)
    ensures Coherent(Apply(remote, delta), locations, dflt)
  {
    forall id ensures ReadAt(Apply(remote, delta), id, dflt) == Shown(ReadAt(locations, id, dflt), dflt) {
      ApplyReads(remote, delta, id, dflt);
      var c := Change(id, if id in locations then locations[id] else REMOVAL);
      if Needed(c, cached, locations, dflt) {
        assert c in delta && c.id == id;
      } else {
        assert forall c' | c' in delta :: Needed(c', cached, locations, dflt);
        assert ReadAt(remote, id, dflt) == Shown(ReadAt(cached, id, dflt), dflt);
      }
    }
  }

  lemma EmptyIff<T>(s: seq<T>)
    ensures s == [] <==> forall x :: x !in s
  {
    if s != [] {
      assert s[0] in s;
    }
  }

  /** The message holds exactly the reported rectangles that the cache reads otherwise, and the rectangle
      (0, 0, -1, -1) for every cached id that is not reported any more. */
  lemma DeltaTells(delta: seq<Change>, cached: Locations, locations: Locations, dflt: Rect, id: string, rect: Rect)
    requires IsDelta(delta, cached, locations, dflt)
    ensures id in locations ==>
              (Change(id, rect) in delta <==>
                 rect == locations[id] && rect != if id in cached then cached[id] else dflt)
    ensures id !in locations ==> (Change(id, rect) in delta <==> id in cached && rect == Rect(0, 0, -1, -1))
  {
    assert Change(id, rect) in delta <==> Needed(Change(id, rect), cached, locations, dflt);
  }

  /** Reporting the same locations again sends nothing. */
  lemma RepeatSendsNothing(delta: seq<Change>, locations: Locations, dflt: Rect)
    requires IsDelta(delta, locations, locations, dflt)
    ensures delta == []
  {
    EmptyIff(delta);
  }

  /** The service reads every id exactly as reported if and only if no reported rectangle has a
      negative size (one that equals the default does no harm). */
  lemma ServiceAgreesIff(remote: Locations, locations: Locations, dflt: Rect)
    requires Coherent(remote, locations, dflt)
    ensures (forall id :: ReadAt(remote, id, dflt) == ReadAt(locations, id, dflt))
       <==> forall id | id in locations ::
              (locations[id].width >= 0 && locations[id].height >= 0) || locations[id] == dflt
  {
    if forall id :: ReadAt(remote, id, dflt) == ReadAt(locations, id, dflt) {
      forall id | id in locations ensures IsReal(locations[id]) || locations[id] == dflt {
        assert ReadAt(remote, id, dflt) == ReadAt(locations, id, dflt);
      }
    }
  }

  /** A reported rectangle of negative width is a needed change, and the service forgets the id. */
  lemma NegativeSizeIsDropped()
    ensures var dflt, rect := Rect(0, 0, 0, 0), Rect(10, 0, -5, 24);
            var delta := [Change("entry", rect)];
            && IsDelta(delta, map[], map["entry" := rect], dflt)
            && ReadAt(Apply(map[], delta), "entry", dflt) == dflt != rect
  {
    var dflt, rect := Rect(0, 0, 0, 0), Rect(10, 0, -5, 24);
    var delta := [Change("entry", rect)];
    assert delta[..0] == [];
    forall c ensures c in delta <==> Needed(c, map[], map["entry" := rect], dflt) {
    }
  }

  // ---------------------------------------------------------------------------------
  // Whole runs

  datatype Happening =
    | Reported(panel: string, locations: Locations)
    | Connected
    | Disconnected

  datatype World = World(connected: bool, cached: map<string, Locations>, remote: map<string, Locations>)

  function Panel(m: map<string, Locations>, panel: string): Locations {
    if panel in m then m[panel] else map[]
  }

  ghost predicate AllCoherent(remote: map<string, Locations>, cached: map<string, Locations>, dflt: Rect) {
    forall panel :: Coherent(Panel(remote, panel), Panel(cached, panel), dflt)
  }

  /** A report keeps every panel coherent. */
  lemma ReportKeepsAllCoherent(remote: map<string, Locations>, cached: map<string, Locations>, panel: string,
                               delta: seq<Change>, locations: Locations, dflt: Rect)
    requires AllCoherent(remote, cached, dflt) && IsDelta(delta, Panel(cached, panel), locations, dflt)
    ensures AllCoherent(remote[panel := Apply(Panel(remote, panel), delta)], cached[panel := locations], dflt)
  {
    assert Coherent(Panel(remote, panel), Panel(cached, panel), dflt);
    DeltaKeepsCoherence(Panel(remote, panel), delta, Panel(cached, panel), locations, dflt);
    var remote', cached' := remote[panel := Apply(Panel(remote, panel), delta)], cached[panel := locations];
    forall p ensures Coherent(Panel(remote', p), Panel(cached', p), dflt) {
      assert Coherent(Panel(remote, p), Panel(cached, p), dflt);
    }
  }

  ghost predicate ReportStep(w: World, panel: string, locations: Locations, delta: seq<Change>, w': World, dflt: Rect) {
    && IsDelta(delta, Panel(w.cached, panel), locations, dflt)
    && w' == World(w.connected, w.cached[panel := locations],
                   w.remote[panel := Apply(Panel(w.remote, panel), delta)])
  }

  ghost predicate Step(w: World, h: Happening, w': World, dflt: Rect) {
    match h
    case Reported(panel, locations) =>
      if !w.connected || panel == "" then w' == w
      else exists delta :: ReportStep(w, panel, locations, delta, w', dflt)
    case Connected => w' == w.(connected := true)
    case Disconnected => w' == World(false, map[], map[])
  }

  ghost predicate IsRun(ws: seq<World>, hs: seq<Happening>, dflt: Rect) {
    && |ws| == |hs| + 1
    && ws[0] == World(false, map[], map[])
    && forall i | 0 <= i < |hs| :: Step(ws[i], hs[i], ws[i + 1], dflt)
  }

  function IsUp(hs: seq<Happening>): bool {
    if hs == [] then false else
      match hs[|hs| - 1]
      case Connected => true
      case Disconnected => false
      case Reported(_, _) => IsUp(hs[..|hs| - 1])
  }

  /** The last report for a panel that was made on the present connection. */
  function LastReport(hs: seq<Happening>, panel: string): Locations {
    if hs == [] then map[] else
      var before := hs[..|hs| - 1];
      match hs[|hs| - 1]
      case Connected => LastReport(before, panel)
      case Disconnected => map[]
      case Reported(p, locations) =>
        if p == panel && p != "" && IsUp(before) then locations else LastReport(before, panel)
  }

  /** At every point of every run, for every panel, the cache is the last report and the service
      agrees with it. */
  lemma {:induction false} RunsStayCoherent(ws: seq<World>, hs: seq<Happening>, panel: string, dflt: Rect)
    requires IsRun(ws, hs, dflt)
    ensures ws[|hs|].connected == IsUp(hs)
    ensures Panel(ws[|hs|].cached, panel) == LastReport(hs, panel)
    ensures Coherent(Panel(ws[|hs|].remote, panel), LastReport(hs, panel), dflt)
    decreases |hs|
  {
    if hs != [] {
      var n := |hs| - 1;
      var w, w' := ws[n], ws[n + 1];
      assert Step(w, hs[n], w', dflt);
      assert IsRun(ws[..n + 1], hs[..n], dflt) by {
        forall i | 0 <= i < n ensures Step(ws[..n + 1][i], hs[..n][i], ws[..n + 1][i + 1], dflt) {
          assert Step(ws[i], hs[i], ws[i + 1], dflt);
        }
      }
      RunsStayCoherent(ws[..n + 1], hs[..n], panel, dflt);
      if hs[n].Reported? && w.connected && hs[n].panel == panel && panel != "" {
        var delta :| ReportStep(w, panel, hs[n].locations, delta, w', dflt);
        DeltaKeepsCoherence(Panel(w.remote, panel), delta, Panel(w.cached, panel), hs[n].locations, dflt);
      }
    }
  }
}
