/** The rows of one category, kept as a view of the results of a scope: built once by the map function
    and kept up to date by the notify function (UnityCore/ScopeProxy.cpp). */
module CategoryView {

  /** A row of the results; iter is its identity. */
  datatype Row = Row(iter: nat, category: nat)

  ghost predicate DistinctIters(rows: seq<Row>) {
    forall i, j | 0 <= i < j < |rows| :: rows[i].iter != rows[j].iter
  }

  /** The rows of the category, in their order. */
  function Filtered(rows: seq<Row>, category: nat): seq<Row> {
    if rows == [] then [] else
      var last := rows[|rows| - 1];
      Filtered(rows[..|rows| - 1], category) + (if last.category == category then [last] else [])
  }

  lemma NoRows(category: nat)
    ensures Filtered([], category) == []
  {
  }

  lemma FilteredStep(rows: seq<Row>, category: nat, i: nat)
    requires i < |rows|
    ensures Filtered(rows[..i + 1], category) ==
            Filtered(rows[..i], category) + if rows[i].category == category then [rows[i]] else []
  {
    assert rows[..i + 1][..i] == rows[..i];
  }

  lemma {:induction false} FilteredConcat(a: seq<Row>, b: seq<Row>, category: nat)
    ensures Filtered(a + b, category) == Filtered(a, category) + Filtered(b, category)
    decreases |b|
  {
    if b == [] {
      assert a + b == a;
    } else {
      assert (a + b)[..|a + b| - 1] == a + b[..|b| - 1];
      FilteredConcat(a, b[..|b| - 1], category);
    }
  }

  lemma {:induction false} FilteredHas(rows: seq<Row>, category: nat, r: Row)
    ensures r in Filtered(rows, category) <==> r in rows && r.category == category
  {
    if rows != [] {
      FilteredHas(rows[..|rows| - 1], category, r);
      assert rows == rows[..|rows| - 1] + [rows[|rows| - 1]];
    }
  }

  /** A row of the category stands in the view right after the rows of the category before it: the
      view keeps the order and repeats nothing. */
  lemma FilteredAt(rows: seq<Row>, category: nat, i: nat)
    requires i < |rows| && rows[i].category == category
    ensures |Filtered(rows[..i], category)| < |Filtered(rows, category)|
    ensures Filtered(rows, category)[|Filtered(rows[..i], category)|] == rows[i]
  {
    FilteredStep(rows, category, i);
    FilteredConcat(rows[..i + 1], rows[i + 1..], category);
    assert rows == rows[..i + 1] + rows[i + 1..];
  }

  class View {
    const category: nat
    var rows: seq<Row>

    /** The map function: walks the whole model. */
    constructor (model: seq<Row>, category: nat)
      ensures rows == Filtered(model, category) && this.category == category
    {
      this.category := category;
      rows := [];
      new;
      for iter := 0 to |model|
        invariant this.category == category
        invariant rows == Filtered(model[..iter], category)
      {
        FilteredStep(model, category, iter);
        if category == model[iter].category {
          rows := rows + [model[iter]];
        }
      }
      assert model[..|model|] == model;
    }

    /** The notify function, after the model took in the row at position p. */
    method OnRowAdded(model: seq<Row>, p: nat) returns (used: bool)
      requires p < |model| && DistinctIters(model)
      requires rows == Filtered(model[..p] + model[p + 1..], category)
      modifies `rows
      ensures rows == Filtered(model, category)
      ensures used <==> rows != old(rows)
    {
      var before, after := model[..p], model[p + 1..];
      FilteredConcat(before, after, category);
      FilteredStep(model, category, p);
      FilteredConcat(model[..p + 1], after, category);
      assert model == model[..p + 1] + after;
      if category != model[p].category {
        return false;
      }
      InsertWithOriginalOrder(model, p);
      return true;
    }

    /** Places the row before the next row of the model that is in the view, as the insertion of the
        model library is taken to do. */
    method InsertWithOriginalOrder(model: seq<Row>, p: nat)
      requires p < |model| && DistinctIters(model)
      requires rows == Filtered(model[..p], category) + Filtered(model[p + 1..], category)
      modifies `rows
      ensures rows == Filtered(model[..p], category) + [model[p]] + Filtered(model[p + 1..], category)
    {
      hide Filtered, DistinctIters;
      var next := p + 1;
      while next < |model| && model[next] !in rows
        invariant p < next <= |model| && rows == old(rows)
        invariant Filtered(model[p + 1..], category) == Filtered(model[next..], category)
      {
        NotInView(model, p, next);
        next := next + 1;
      }
      NoRows(category);
      if next == |model| {
        assert model[next..] == [];
        rows := rows + [model[p]];
      } else {
        var position := IndexInView(model, p, next);
        rows := rows[..position] + [model[p]] + rows[position..];
      }
    }

    lemma NotInView(model: seq<Row>, p: nat, next: nat)
      requires p < next < |model| && model[next] !in rows
      requires rows == Filtered(model[..p], category) + Filtered(model[p + 1..], category)
      ensures Filtered(model[next..], category) == Filtered(model[next + 1..], category)
    {
      assert model[next..] == [model[next]] + model[next + 1..];
      FilteredConcat([model[next]], model[next + 1..], category);
      FilteredHas(model[p + 1..], category, model[next]);
      assert model[p + 1..][next - p - 1] == model[next];
    }

    /** Behind the rows from before p, the view goes on with the next row that is in it, and not earlier. */
    lemma FirstAfter(model: seq<Row>, p: nat, next: nat)
      requires p < next < |model| && DistinctIters(model) && model[next] in rows
      requires rows == Filtered(model[..p], category) + Filtered(model[next..], category)
      ensures |Filtered(model[..p], category)| < |rows| && rows[|Filtered(model[..p], category)|] == model[next]
      ensures forall k | 0 <= k < |Filtered(model[..p], category)| :: rows[k] != model[next]
    {
      FilteredHas(model[..p], category, model[next]);
      FilteredHas(model[next..], category, model[next]);
      FilteredAt(model[next..], category, 0);
      assert Filtered(model[next..][..0], category) == [];
      forall k | 0 <= k < |Filtered(model[..p], category)| ensures rows[k] != model[next] {
        assert rows[k] in Filtered(model[..p], category);
      }
    }

    method IndexInView(model: seq<Row>, p: nat, next: nat) returns (position: nat)
      requires p < next < |model| && DistinctIters(model) && model[next] in rows
      requires rows == Filtered(model[..p], category) + Filtered(model[next..], category)
      ensures position == |Filtered(model[..p], category)|
    {
      ghost var expected := |Filtered(model[..p], category)|;
      FirstAfter(model, p, next);
      position := 0;
      while position < |rows| && rows[position] != model[next]
        invariant position <= expected
      {
        position := position + 1;
      }
    }
  }

  /** The results of a scope with the views handed out so far. */
  class Results {
    var attached: bool              // there is a model
    var rows: seq<Row>
    var views: seq<View>

    /** Every view shows exactly the rows of its category, in the order of the results. */
    ghost predicate Valid()
      reads this, views
    {
      && DistinctIters(rows)
      && (forall i, j | 0 <= i < j < |views| :: views[i] != views[j])
      && forall v | v in views :: v.rows == Filtered(rows, v.category)
    }

    constructor Detached()
      ensures Valid() && !attached && rows == [] && views == []
    {
      attached, rows, views := false, [], [];
    }

    constructor (rows: seq<Row>)
      requires DistinctIters(rows)
      ensures Valid() && attached && this.rows == rows && views == []
    {
      attached, this.rows, views := true, rows, [];
    }

    method GetResultsForCategory(category: nat) returns (view: View?)
      requires Valid()
      modifies `views
      ensures Valid()
      ensures !attached ==> view == null && views == old(views)
      ensures attached ==>
                && view != null && views == old(views) + [view]
                && fresh(view) && view.category == category && view.rows == Filtered(rows, category)
    {
      if !attached {
        return null;
      }
      view := new View(rows, category);
      views := views + [view];
    }

    /** A row arrives at any position; every view is notified. */
    method Insert(p: nat, row: Row)
      requires Valid() && attached && p <= |rows| && forall r | r in rows :: r.iter != row.iter
      modifies `rows, views
      ensures Valid() && views == old(views)
      ensures rows == old(rows)[..p] + [row] + old(rows)[p..]
    {
      hide Filtered, DistinctIters;
      ghost var before := rows;
      rows := rows[..p] + [row] + rows[p..];
      ghost var after := rows;
      DistinctAfterInsert(before, p, row);
      assert after[..p] + after[p + 1..] == before;
      assert forall k | 0 <= k < |views| :: views[k] in views;
      for i := 0 to |views|
        invariant views == old(views) && rows == after
        invariant forall k | i <= k < |views| :: views[k].rows == Filtered(before, views[k].category)
        invariant forall k | 0 <= k < i :: views[k].rows == Filtered(after, views[k].category)
      {
        var _ := views[i].OnRowAdded(rows, p);
      }
    }
  }

  lemma DistinctAfterInsert(rows: seq<Row>, p: nat, row: Row)
    requires DistinctIters(rows) && p <= |rows| && forall r | r in rows :: r.iter != row.iter
    ensures DistinctIters(rows[..p] + [row] + rows[p..])
  {
    var after := rows[..p] + [row] + rows[p..];
    forall i, j | 0 <= i < j < |after| ensures after[i].iter != after[j].iter {
      if i != p && j != p {
        assert after[i] == rows[if i < p then i else i - 1] && after[j] == rows[if j < p then j else j - 1];
      } else {
        assert after[if i == p then j else i] in rows;
      }
    }
  }
}
