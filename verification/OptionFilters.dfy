/** Filters made of options that can be switched on and off, mirrored into a row of a shared model
    (UnityCore/MultiRangeFilter.cpp, UnityCore/RadioOptionFilter.cpp, UnityCore/Filter.cpp). Writing
    an option runs handlers that write other options, and writing the row runs the handler that reads
    the row; each is stopped by a flag of its own. */
module OptionFilters {

  datatype Kind = MultiRange | Radio

  datatype Option<+T> = None | Some(value: T)

  datatype OptionState = OptionState(id: string, name: string, iconHint: string, active: bool)

  /** The columns of the row that matter here; the show-all-button hint may be missing. */
  datatype Row = Row(options: seq<OptionState>, showAllButton: Option<bool>, filtering: bool)

  class FilterOption {
    const id: string
    const name: string
    const iconHint: string
    var active: bool

    constructor (s: OptionState)
      ensures id == s.id && name == s.name && iconHint == s.iconHint && active == s.active
    {
      id, name, iconHint, active := s.id, s.name, s.iconHint, s.active;
    }

    ghost function State(): OptionState
      reads this
    {
      OptionState(id, name, iconHint, active)
    }
  }

  ghost function ActivesOf(os: seq<FilterOption>): (r: seq<bool>)
    reads os
    ensures |r| == |os|
  {
    seq(|os|, i requires 0 <= i < |os| reads os => os[i].active)
  }

  ghost function StatesOf(os: seq<FilterOption>): seq<OptionState>
    reads os
  {
    seq(|os|, i requires 0 <= i < |os| reads os => os[i].State())
  }

  // ---------------------------------------------------------------------------------
  // What a toggle leaves active, said of the flags alone

  predicate Between(i: int, j: int, p: int) {
    i <= j < p || p < j <= i
  }

  /** Exactly the positions from which every position on the way to p was active, and p itself. */
  ghost predicate IsRunAround(a: seq<bool>, p: nat, r: seq<bool>) {
    |r| == |a| && forall i | 0 <= i < |a| :: r[i] <==> forall j | 0 <= j < |a| && Between(i, j, p) :: a[j]
  }

  /** Exactly the positions of the first run: active, with no gap behind an earlier active one. */
  ghost predicate IsFirstRun(a: seq<bool>, r: seq<bool>) {
    |r| == |a| && forall i | 0 <= i < |a| :: r[i] <==> a[i] && !Broken(a, i)
  }

  /** Somewhere before i an active position is followed by an inactive one. */
  ghost predicate Broken(a: seq<bool>, i: nat)
    requires i <= |a|
  {
    exists j, k :: 0 <= j < k < i && a[j] && !a[k]
  }

  ghost predicate IsInterval(r: seq<bool>) {
    forall i, j, k | 0 <= i < j < k < |r| && r[i] && r[k] :: r[j]
  }

  lemma RunAroundIsInterval(a: seq<bool>, p: nat, r: seq<bool>)
    requires p < |a| && IsRunAround(a, p, r)
    ensures IsInterval(r) && r[p] && forall i | 0 <= i < |a| && i != p && r[i] :: a[i]
  {
    forall i | 0 <= i < |a| && i != p && r[i] ensures a[i] {
      assert Between(i, i, p);
    }
    forall i, j, k | 0 <= i < j < k < |r| && r[i] && r[k] ensures r[j] {
      forall m | 0 <= m < |a| && Between(j, m, p) ensures a[m] {
        assert Between(i, m, p) || Between(k, m, p);
      }
    }
  }

  /** It is the largest one: any interval around p whose other positions were active is inside it. */
  lemma RunAroundIsMaximal(a: seq<bool>, p: nat, r: seq<bool>, t: seq<bool>)
    requires p < |a| && IsRunAround(a, p, r)
    requires |t| == |a| && IsInterval(t) && t[p] && forall i | 0 <= i < |t| && i != p && t[i] :: a[i]
    ensures forall i | 0 <= i < |t| && t[i] :: r[i]
  {
    forall i | 0 <= i < |t| && t[i] ensures r[i] {
      forall j | 0 <= j < |a| && Between(i, j, p) ensures a[j] {
        assert t[j];
      }
    }
  }

  lemma FirstRunIsInterval(a: seq<bool>, r: seq<bool>)
    requires IsFirstRun(a, r)
    ensures IsInterval(r) && |r| == |a| && forall i | 0 <= i < |a| && r[i] :: a[i]
  {
    forall i, j, k | 0 <= i < j < k < |r| && r[i] && r[k] ensures r[j] {
      assert a[i] && !Broken(a, k) && a[j];
    }
  }

  /** It starts at the first active position and ends before the first gap after it. */
  lemma FirstRunIsFirst(a: seq<bool>, r: seq<bool>, first: nat, i: nat)
    requires IsFirstRun(a, r) && first < |a| && a[first] && (forall j | 0 <= j < first :: !a[j]) && i < |a|
    ensures r[i] <==> first <= i && forall j | first <= j <= i :: a[j]
  {
  }

  ghost predicate AllActive(a: seq<bool>, lo: int, hi: int)
    requires 0 <= lo && hi <= |a|
  {
    forall j | lo <= j < hi :: a[j]
  }

  /** The flags with those strictly between lo and p, and strictly between p and hi, narrowed to the
      positions from which no gap lies on the way to p. */
  ghost function Narrowed(a: seq<bool>, lo: int, p: nat, hi: nat): seq<bool>
    requires -1 <= lo <= p < |a| && p <= hi <= |a|
  {
    seq(|a|, k requires 0 <= k < |a| =>
      if lo < k < p then AllActive(a, k, p) else if p < k < hi then AllActive(a, p + 1, k + 1) else a[k])
  }

  lemma NarrowDown(a: seq<bool>, i: nat, p: nat)
    requires i < p < |a|
    ensures AllActive(a, i, p) == (AllActive(a, i + 1, p) && a[i])
    ensures Narrowed(a, i - 1, p, p) == Narrowed(a, i, p, p)[i := AllActive(a, i, p)]
  {
  }

  lemma NarrowUp(a: seq<bool>, p: nat, i: nat)
    requires p < i < |a|
    ensures AllActive(a, p + 1, i + 1) == (AllActive(a, p + 1, i) && a[i])
    ensures Narrowed(a, p, p, i + 1) == Narrowed(a, p, p, i)[i := AllActive(a, p + 1, i + 1)]
  {
  }

  /** Narrowing downwards and then upwards leaves exactly the run around p, and p as it is. */
  lemma NarrowedIsRun(a: seq<bool>, p: nat)
    requires p < |a|
    ensures var r := Narrowed(Narrowed(a, -1, p, p), p, p, |a|);
            |r| == |a| && r[p] == a[p] && IsRunAround(a, p, r[p := true])
  {
    var b := Narrowed(a, -1, p, p);
    var r := Narrowed(b, p, p, |a|);
    forall i | 0 <= i < |a| && i != p ensures r[i] <==> forall j | 0 <= j < |a| && Between(i, j, p) :: a[j] {
      if i < p {
        assert r[i] == b[i] == AllActive(a, i, p);
        assert forall j | 0 <= j < |a| :: Between(i, j, p) <==> i <= j < p;
      } else if i > p {
        assert r[i] == AllActive(b, p + 1, i + 1);
        assert forall j | p < j <= i :: b[j] == a[j];
        assert forall j | 0 <= j < |a| :: Between(i, j, p) <==> p < j <= i;
      }
    }
  }

  lemma BrokenStep(a: seq<bool>, i: nat)
    requires i < |a|
    ensures Broken(a, i + 1) <==> Broken(a, i) || (!a[i] && exists j | 0 <= j < i :: a[j])
  {
    if Broken(a, i) {
      var j, k :| 0 <= j < k < i && a[j] && !a[k];
      assert 0 <= j < k < i + 1;
    }
  }

  /** What switching position p to v leaves of the flags a. */
  ghost predicate IsToggle(kind: Kind, a: seq<bool>, p: nat, v: bool, r: seq<bool>)
    requires p < |a|
  {
    match kind
    case MultiRange => if v then IsRunAround(a, p, r) else IsFirstRun(a[p := false], r)
    case Radio => |r| == |a| && forall i | 0 <= i < |a| :: r[i] == if i == p then v else a[i] && !v
  }

  /** What the handler makes of the flags a when the option at p says that it has become v. */
  ghost predicate IsHandled(kind: Kind, a: seq<bool>, p: nat, v: bool, r: seq<bool>)
    requires p < |a|
  {
    && |r| == |a|
    && match kind
       case MultiRange => if v then r[p] == a[p] && IsRunAround(a, p, r[p := true]) else IsFirstRun(a, r)
       case Radio => forall i | 0 <= i < |a| :: r[i] == (a[i] && (i == p || !v))
  }

  /** A toggle is the change of the position itself and then the handler. */
  lemma HandledIsToggle(kind: Kind, a: seq<bool>, p: nat, v: bool, r: seq<bool>)
    requires p < |a| && IsHandled(kind, a[p := v], p, v, r)
    ensures IsToggle(kind, a, p, v, r)
  {
    if kind == MultiRange && v {
      assert r[p := true] == r;
      forall i | 0 <= i < |a| ensures r[i] <==> forall j | 0 <= j < |a| && Between(i, j, p) :: a[j] {
        assert forall j | 0 <= j < |a| && Between(i, j, p) :: a[p := v][j] == a[j];
      }
    }
  }

  /** A radio option that is switched on is the only one left; one that is switched off leaves the others. */
  lemma RadioIsExclusive(a: seq<bool>, p: nat, v: bool, r: seq<bool>)
    requires p < |a| && IsToggle(Radio, a, p, v, r)
    ensures v ==> |r| == |a| && forall i | 0 <= i < |a| :: r[i] <==> i == p
    ensures !v ==> r == a[p := false]
  {
  }

  /** The change of an option object that an update of the row has replaced by one with the same id does
      not change the position itself. Switched on like this, the options form an interval exactly unless
      p is inactive between two active neighbours. */
  lemma StaleChangeLeavesIntervalIff(a: seq<bool>, p: nat, r: seq<bool>)
    requires p < |a| && IsHandled(MultiRange, a, p, true, r)
    ensures IsInterval(r) <==> a[p] || !(0 < p && a[p - 1] && p + 1 < |a| && a[p + 1])
  {
    var run := r[p := true];
    RunAroundIsInterval(a, p, run);
    assert forall i | 0 <= i < |a| && i != p :: r[i] == run[i];
    if 0 < p {
      RunNeighbour(a, p, run, p - 1);
    }
    if p + 1 < |a| {
      RunNeighbour(a, p, run, p + 1);
    }
    if a[p] {
      assert run == r;
    } else if 0 < p && !a[p - 1] {
      forall i | 0 <= i < p ensures !r[i] {
        assert Between(i, p - 1, p);
      }
    } else if p + 1 < |a| && !a[p + 1] {
      forall i | p < i < |a| ensures !r[i] {
        assert Between(i, p + 1, p);
      }
    }
  }

  /** Both parts of that condition can fail: here the position stays off between the two others. */
  lemma StaleChangeSplits()
    ensures IsHandled(MultiRange, [true, false, true], 1, true, [true, false, true])
    ensures !IsInterval([true, false, true])
  {
    var a := [true, false, true];
    assert a[1 := true] == [true, true, true];
    assert a[0] && a[2] && !a[1];
  }

  lemma RunNeighbour(a: seq<bool>, p: nat, run: seq<bool>, i: nat)
    requires p < |a| && i < |a| && (i + 1 == p || i == p + 1) && IsRunAround(a, p, run)
    ensures run[i] == a[i]
  {
    assert Between(i, i, p);
    forall j | 0 <= j < |a| && Between(i, j, p) ensures a[j] == a[i] {
      assert j == i;
    }
  }

  /** Whatever the remote side had made active, a toggle leaves one interval or nothing, and switches on no
      other option. */
  lemma ToggleLeavesInterval(a: seq<bool>, p: nat, v: bool, r: seq<bool>)
    requires p < |a| && IsToggle(MultiRange, a, p, v, r)
    ensures IsInterval(r) && |r| == |a| && r[p] == v && forall i | 0 <= i < |a| && i != p && r[i] :: a[i]
  {
    if v {
      RunAroundIsInterval(a, p, r);
    } else {
      FirstRunIsInterval(a[p := false], r);
    }
  }

  // ---------------------------------------------------------------------------------
  // The filter

  class OptionFilter {
    const kind: Kind
    var hasModel: bool
    var hasRow: bool
    var row: Row                        // owned by the model, also written by the remote side
    var filterIgnores: bool             // ignore_changes_ of the base class
    var ignoreChanges: bool             // ignore_changes_ of the derived class, which hides it
    var options: seq<FilterOption>
    var showAllButton: bool

    ghost function Actives(): seq<bool>
      reads `options, options
    {
      ActivesOf(options)
    }

    ghost function Encoded(): seq<OptionState>
      reads `options, options
    {
      StatesOf(options)
    }

    ghost predicate DistinctIds()
      reads `options
    {
      forall i, j | 0 <= i < j < |options| :: options[i].id != options[j].id
    }

    ghost predicate IsValid()
      reads `hasModel, `hasRow
    {
      hasModel && hasRow
    }

    /** The row holds what is in memory. */
    ghost predicate RowAgrees()
      reads `row, `options, options
    {
      row.options == Encoded() && row.filtering == (true in Actives())
    }

    /** What the remote side reads in an agreeing row: every option as it is in memory, and whether the filter
        restricts anything. */
    lemma RowTells()
      requires RowAgrees()
      ensures |row.options| == |options|
      ensures forall i | 0 <= i < |options| ::
                row.options[i] == OptionState(options[i].id, options[i].name, options[i].iconHint, options[i].active)
      ensures row.filtering <==> exists o | o in options :: o.active
    {
      forall i | 0 <= i < |options| ensures row.options[i] == options[i].State() && Actives()[i] == options[i].active {
        assert Encoded()[i] == options[i].State();
      }
      if row.filtering {
        var i :| 0 <= i < |Actives()| && Actives()[i];
        assert options[i] in options && options[i].active;
      }
    }

    // The handler of row-changed; the row is this filter's own.
    method OnRowChanged()
      requires hasModel
      modifies this
      ensures row == old(row) && hasModel && hasRow == old(hasRow)
      ensures filterIgnores == old(filterIgnores) && ignoreChanges == old(ignoreChanges)
      ensures !hasRow || filterIgnores ==> options == old(options) && showAllButton == old(showAllButton)
      ensures hasRow && !filterIgnores ==>
                && Encoded() == row.options && (forall o | o in options :: fresh(o))
                && showAllButton == if row.showAllButton.Some? then row.showAllButton.value else old(showAllButton)
    {
      if !hasRow || filterIgnores {
        return;
      }
      Update();
    }

    method Update()
      modifies `options, `showAllButton
      ensures Encoded() == row.options && (forall o | o in options :: fresh(o))
      ensures showAllButton == if row.showAllButton.Some? then row.showAllButton.value else old(showAllButton)
    {
      if row.showAllButton.Some? {
        showAllButton := row.showAllButton.value;
      }
      options := [];
      for i := 0 to |row.options|
        invariant |options| == i && row == old(row)
        invariant showAllButton == if row.showAllButton.Some? then row.showAllButton.value else old(showAllButton)
        invariant forall k | 0 <= k < i :: options[k].State() == row.options[k]
        invariant forall o | o in options :: fresh(o)
      {
        var option := new FilterOption(row.options[i]);
        options := options + [option];
      }
    }

    method UpdateState()
      modifies this
      ensures options == old(options) && showAllButton == old(showAllButton)
      ensures ignoreChanges == old(ignoreChanges) && hasModel == old(hasModel) && hasRow == old(hasRow)
      ensures !IsValid() ==> row == old(row) && filterIgnores == old(filterIgnores)
      ensures IsValid() ==> RowAgrees() && row.showAllButton == None && !filterIgnores
    {
      if !hasModel || !hasRow {
        return;
      }
      var filtering := false;
      var state: seq<OptionState> := [];
      for i := 0 to |options|
        invariant |state| == i && forall k | 0 <= k < i :: state[k] == options[k].State()
        invariant filtering <==> exists k | 0 <= k < i :: options[k].active
      {
        var option := options[i];
        filtering := if filtering then true else option.active;
        state := state + [OptionState(option.id, option.name, option.iconHint, option.active)];
      }
      assert filtering == (true in Actives()) by {
        if filtering {
          ghost var k :| 0 <= k < |options| && options[k].active;
          assert Actives()[k];
        }
      }
      filterIgnores := true;
      // Each write raises row-changed before the next statement runs.
      row := row.(options := state, showAllButton := None);
      OnRowChanged();
      row := row.(filtering := filtering);
      OnRowChanged();
      filterIgnores := false;
    }

    method PositionOfId(id: string) returns (position: int)
      ensures -1 <= position < |options|
      ensures position >= 0 ==> options[position].id == id
      ensures position < 0 ==> forall i | 0 <= i < |options| :: options[i].id != id
    {
      for i := 0 to |options|
        invariant forall k | 0 <= k < i :: options[k].id != id
      {
        if options[i].id == id {
          return i;
        }
      }
      return -1;
    }

    // An assignment to the active property of an option; its changed signal runs only on a change.
    method SetActive(p: nat, value: bool)
      requires p < |options| && DistinctIds()
      modifies this, options
      ensures options == old(options) && showAllButton == old(showAllButton) && ignoreChanges == old(ignoreChanges)
      ensures hasModel == old(hasModel) && hasRow == old(hasRow)
      ensures old(ignoreChanges) || old(options[p].active) == value ==>
                && row == old(row) && filterIgnores == old(filterIgnores)
                && Actives() == old(Actives())[p := value]
      ensures old(options[p].active) == value ==> Encoded() == old(Encoded())
      ensures !old(ignoreChanges) && old(options[p].active) != value ==>
                && IsToggle(kind, old(Actives()), p, value, Actives())
                && (if IsValid() then RowAgrees() && !filterIgnores
                      else row == old(row) && filterIgnores == old(filterIgnores))
      decreases if ignoreChanges then 0 else 1, 1
    {
      if options[p].active == value {
        assert Actives() == old(Actives())[p := value];
        return;
      }
      hide IsToggle, IsHandled, RowAgrees, StatesOf;
      ghost var a := Actives();
      assert options[p] in options;
      options[p].active := value;
      assert Actives() == a[p := value];
      OptionChanged(value, options[p].id);
      forall r | IsHandled(kind, a[p := value], p, value, r) ensures IsToggle(kind, a, p, value, r) {
        HandledIsToggle(kind, a, p, value, r);
      }
    }

    // The handler of an option's change, bound to the option's id.
    method OptionChanged(isActive: bool, id: string)
      requires DistinctIds()
      modifies this, options
      ensures options == old(options) && showAllButton == old(showAllButton) && ignoreChanges == old(ignoreChanges)
      ensures hasModel == old(hasModel) && hasRow == old(hasRow)
      ensures old(ignoreChanges) || (kind == MultiRange && forall o | o in options :: o.id != id) ==>
                row == old(row) && filterIgnores == old(filterIgnores) && Actives() == old(Actives())
      ensures !old(ignoreChanges) && (kind == Radio || exists o | o in options :: o.id == id) ==>
                if IsValid() then RowAgrees() && !filterIgnores
                else row == old(row) && filterIgnores == old(filterIgnores)
      ensures !old(ignoreChanges) ==>
                forall p | 0 <= p < |options| && options[p].id == id ::
                  IsHandled(kind, old(Actives()), p, isActive, Actives())
      ensures !old(ignoreChanges) && kind == Radio && (forall o | o in options :: o.id != id) ==>
                Actives() == if isActive then seq(|options|, _ => false) else old(Actives())
      decreases if ignoreChanges then 0 else 1, 0
    {
      hide StatesOf, IsRunAround, IsFirstRun, RowAgrees;
      if ignoreChanges {
        return;
      }
      if kind == MultiRange {
        var position := PositionOfId(id);
        if position < 0 {
          return;
        }
        assert options[position] in options;
        ignoreChanges := true;
        Rearrange(position, isActive);
      } else {
        ignoreChanges := true;
        if isActive {
          DeactivateOthers(id);
        }
      }
      ignoreChanges := false;
      UpdateState();
    }

    // What the multi-range handler does to the other options while it ignores their changes.
    method Rearrange(position: nat, isActive: bool)
      requires kind == MultiRange && position < |options| && DistinctIds() && ignoreChanges
      modifies this, options
      ensures Quiet(old(options), old(row), old(filterIgnores), old(showAllButton), old(hasModel), old(hasRow))
      ensures IsHandled(kind, old(Actives()), position, isActive, Actives())
      decreases 0, 3
    {
      ghost var a := Actives();
      if isActive {
        NarrowBelow(position);
        NarrowAbove(position);
        NarrowedIsRun(a, position);
      } else {
        KeepFirstRun();
      }
    }

    // Positions below p stay active as long as no gap has been met on the way down.
    method NarrowBelow(p: nat)
      requires p < |options| && DistinctIds() && ignoreChanges
      modifies this, options
      ensures Quiet(old(options), old(row), old(filterIgnores), old(showAllButton), old(hasModel), old(hasRow))
      ensures Actives() == Narrowed(old(Actives()), -1, p, p)
      decreases 0, 2
    {
      ghost var a := Actives();
      var activate := true;
      var below: int := p - 1;
      assert Narrowed(a, below, p, p) == a;
      while below >= 0
        invariant -1 <= below < p
        invariant Quiet(old(options), old(row), old(filterIgnores), old(showAllButton), old(hasModel), old(hasRow))
        invariant activate == AllActive(a, below + 1, p)
        invariant Actives() == Narrowed(a, below, p, p)
      {
        assert Actives()[below] == a[below];
        activate := activate && options[below].active;
        NarrowDown(a, below, p);
        SetActive(below, activate);
        below := below - 1;
      }
    }

    // Positions above p stay active as long as no gap has been met on the way up.
    method NarrowAbove(p: nat)
      requires p < |options| && DistinctIds() && ignoreChanges
      modifies this, options
      ensures Quiet(old(options), old(row), old(filterIgnores), old(showAllButton), old(hasModel), old(hasRow))
      ensures Actives() == Narrowed(old(Actives()), p, p, |old(options)|)
      decreases 0, 2
    {
      ghost var a := Actives();
      var activate := true;
      var above := p + 1;
      assert Narrowed(a, p, p, above) == a;
      while above < |options|
        invariant p < above <= |options|
        invariant Quiet(old(options), old(row), old(filterIgnores), old(showAllButton), old(hasModel), old(hasRow))
        invariant activate == AllActive(a, p + 1, above)
        invariant Actives() == Narrowed(a, p, p, above)
      {
        assert Actives()[above] == a[above];
        activate := activate && options[above].active;
        NarrowUp(a, p, above);
        SetActive(above, activate);
        above := above + 1;
      }
    }

    // A single contiguous range is kept: the first one.
    method KeepFirstRun()
      requires DistinctIds() && ignoreChanges
      modifies this, options
      ensures Quiet(old(options), old(row), old(filterIgnores), old(showAllButton), old(hasModel), old(hasRow))
      ensures IsFirstRun(old(Actives()), Actives())
      decreases 0, 2
    {
      ghost var a := Actives();
      var activeFound, inactiveFound := false, false;
      for i := 0 to |options|
        invariant Quiet(old(options), old(row), old(filterIgnores), old(showAllButton), old(hasModel), old(hasRow))
        invariant activeFound <==> exists j | 0 <= j < i :: a[j]
        invariant inactiveFound <==> Broken(a, i)
        invariant |Actives()| == |a| && forall k | 0 <= k < |a| :: Actives()[k] == (a[k] && (k < i ==> !Broken(a, k)))
      {
        assert Actives()[i] == a[i];
        BrokenStep(a, i);
        if inactiveFound {
          SetActive(i, false);
        } else {
          if options[i].active {
            activeFound := true;
          } else if activeFound {
            inactiveFound := true;
          }
        }
      }
    }

    // What the radio handler does: only the options with the id may stay active.
    method DeactivateOthers(id: string)
      requires DistinctIds() && ignoreChanges
      modifies this, options
      ensures Quiet(old(options), old(row), old(filterIgnores), old(showAllButton), old(hasModel), old(hasRow))
      ensures |Actives()| == |options|
      ensures forall k | 0 <= k < |options| :: Actives()[k] == (options[k].id == id && old(Actives())[k])
      decreases 0, 2
    {
      ghost var a := Actives();
      for i := 0 to |options|
        invariant Quiet(old(options), old(row), old(filterIgnores), old(showAllButton), old(hasModel), old(hasRow))
        invariant |Actives()| == |a|
        invariant forall k | 0 <= k < |a| :: Actives()[k] == (a[k] && (k < i ==> options[k].id == id))
      {
        if options[i].id != id {
          SetActive(i, false);
        }
      }
    }

    ghost predicate Quiet(os: seq<FilterOption>, r: Row, fi: bool, sab: bool, hm: bool, hr: bool)
      reads this
    {
      && ignoreChanges && options == os && row == r && filterIgnores == fi && showAllButton == sab
      && hasModel == hm && hasRow == hr
    }

    // ---- What the outside does ----

    /** No handler is running, and a live row decodes to the options in memory. */
    ghost predicate AtRest()
      reads this, options
    {
      && !ignoreChanges && !filterIgnores && DistinctIds()
      && (IsValid() ==> row.options == Encoded())
    }

    constructor (kind: Kind, row: Row)
      requires forall i, j | 0 <= i < j < |row.options| :: row.options[i].id != row.options[j].id
      ensures AtRest() && this.kind == kind && this.row == row && IsValid()
      ensures forall o | o in options :: fresh(o)
    {
      this.kind, this.row, hasModel, hasRow := kind, row, true, true;
      filterIgnores, ignoreChanges, options, showAllButton := false, false, [], true;
      new;
      OnRowChanged();
      EncodedDistinct();
    }

    lemma EncodedDistinct()
      requires Encoded() == row.options
      requires forall i, j | 0 <= i < j < |row.options| :: row.options[i].id != row.options[j].id
      ensures DistinctIds()
    {
      forall i, j | 0 <= i < j < |options| ensures options[i].id != options[j].id {
        assert Encoded()[i].id == options[i].id && Encoded()[j].id == options[j].id;
      }
    }

    /** The user switches an option on or off. */
    method Switch(p: nat, value: bool)
      requires AtRest() && p < |options|
      modifies this, options
      ensures AtRest() && options == old(options) && showAllButton == old(showAllButton)
      ensures hasModel == old(hasModel) && hasRow == old(hasRow)
      ensures old(options[p].active) == value ==>
                && Actives() == old(Actives()) && Encoded() == old(Encoded()) && row == old(row)
                && (old(RowAgrees()) ==> RowAgrees())
      ensures old(options[p].active) != value ==>
                && IsToggle(kind, old(Actives()), p, value, Actives())
                && (kind == MultiRange ==> IsInterval(Actives()))
                && (IsValid() ==> RowAgrees())
    {
      ghost var a := Actives();
      SetActive(p, value);
      if a[p] != value && kind == MultiRange {
        ToggleLeavesInterval(a, p, value, Actives());
      } else if a[p] == value {
        assert a[p := value] == a;
      }
    }

    method ClearMultiRange()
      requires AtRest() && kind == MultiRange
      modifies this, options
      ensures AtRest() && options == old(options) && true !in Actives()
      ensures IsValid() ==> RowAgrees()
    {
      ignoreChanges := true;
      for i := 0 to |options|
        invariant Quiet(old(options), old(row), old(filterIgnores), old(showAllButton), old(hasModel), old(hasRow))
        invariant forall k | 0 <= k < i :: !Actives()[k]
      {
        SetActive(i, false);
      }
      ignoreChanges := false;
      UpdateState();
    }

    // Every option that is switched off writes the row once.
    method SwitchOff(p: nat)
      requires AtRest() && kind == Radio && p < |options|
      modifies this, options
      ensures AtRest() && options == old(options) && hasModel == old(hasModel) && hasRow == old(hasRow)
      ensures Actives() == old(Actives())[p := false]
      ensures old(Actives())[p] && IsValid() ==> RowAgrees()
      ensures !old(Actives())[p] ==> row == old(row) && (old(RowAgrees()) ==> RowAgrees())
    {
      Switch(p, false);
    }

    method ClearRadio()
      requires AtRest() && kind == Radio
      modifies this, options
      ensures AtRest() && options == old(options) && true !in Actives()
      ensures IsValid() && true in old(Actives()) ==> RowAgrees()
      ensures true !in old(Actives()) ==> row == old(row)
    {
      hide RowAgrees, ActivesOf, StatesOf, AtRest;
      ghost var a := Actives();
      for i := 0 to |options|
        invariant AtRest() && options == old(options) && hasModel == old(hasModel) && hasRow == old(hasRow)
        invariant |a| == |Actives()| == |options|
        invariant forall k | 0 <= k < |options| :: Actives()[k] == (i <= k && a[k])
        invariant true in a[..i] && IsValid() ==> RowAgrees()
        invariant true !in a[..i] ==> row == old(row)
      {
        assert a[..i + 1] == a[..i] + [a[i]] && Actives()[i] == a[i];
        SwitchOff(i);
      }
      assert a[..|options|] == a;
    }

    /** Nothing is left active; a multi-range filter always writes the row, a radio filter only when
        something was active. */
    method Clear()
      requires AtRest()
      modifies this, options
      ensures AtRest() && options == old(options) && true !in Actives()
      ensures IsValid() && (kind == MultiRange || true in old(Actives())) ==> RowAgrees()
      ensures kind == Radio && true !in old(Actives()) ==> row == old(row)
    {
      if kind == MultiRange {
        ClearMultiRange();
      } else {
        ClearRadio();
      }
    }

    /** The remote side writes the row. */
    method OnRemoteChange(newRow: Row)
      requires AtRest() && IsValid()
      requires forall i, j | 0 <= i < j < |newRow.options| :: newRow.options[i].id != newRow.options[j].id
      modifies this
      ensures AtRest() && row == newRow && hasModel && hasRow
      ensures forall o | o in options :: fresh(o)
      ensures showAllButton == if newRow.showAllButton.Some? then newRow.showAllButton.value else old(showAllButton)
    {
      row := newRow;
      OnRowChanged();
      EncodedDistinct();
    }

    method OnRowRemoved()
      modifies `hasRow
      ensures !hasRow && (old(AtRest()) ==> AtRest())
    {
      hasRow := false;
    }

    method OnModelDestroyed()
      modifies `hasModel, `hasRow
      ensures !hasModel && !hasRow && (old(AtRest()) ==> AtRest())
    {
      hasModel := false;
      OnRowRemoved();
    }
  }
}
