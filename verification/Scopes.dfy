/** The ordered list of scopes, edited in place so that it follows the list the settings ask for
    (UnityCore/Scopes.cpp). */
module Scopes {

  class Scope {
    const id: string

    constructor (id: string)
      ensures this.id == id
    {
      this.id := id;
    }
  }

  datatype ScopeData = ScopeData(id: string)

  datatype Option<+T> = None | Some(value: T)

  datatype Event =
    | ScopeAdded(scope: Scope, index: nat)
    | ScopeRemoved(scope: Scope)
    | ScopesReordered(scopes: seq<Scope>)

  ghost predicate DistinctIds(s: seq<Scope>) {
    forall i, j | 0 <= i < j < |s| :: s[i].id != s[j].id
  }

  ghost predicate DistinctData(data: seq<ScopeData>) {
    forall i, j | 0 <= i < j < |data| :: data[i].id != data[j].id
  }

  ghost predicate HasId(s: seq<Scope>, id: string) {
    exists x | x in s :: x.id == id
  }

  ghost predicate Asked(data: seq<ScopeData>, id: string) {
    exists d | d in data :: d.id == id
  }

  lemma AskedStep(data: seq<ScopeData>, i: nat, id: string)
    requires i < |data|
    ensures Asked(data[..i + 1], id) <==> Asked(data[..i], id) || id == data[i].id
  {
    assert data[..i + 1] == data[..i] + [data[i]];
    if Asked(data[..i], id) {
      var d :| d in data[..i] && d.id == id;
      assert d in data[..i + 1];
    }
    assert data[i] in data[..i + 1];
  }

  function RemoveAt<T>(s: seq<T>, i: nat): seq<T>
    requires i < |s|
  {
    s[..i] + s[i + 1..]
  }

  function InsertAt<T>(s: seq<T>, i: nat, x: T): seq<T>
    requires i <= |s|
  {
    s[..i] + [x] + s[i..]
  }

  // ---------------------------------------------------------------------------------
  // A listener that sees only the events

  /** An event that a listener holding `seen` can follow; a reorder only permutes. */
  ghost predicate Applicable(seen: seq<Scope>, e: Event) {
    match e
    case ScopeAdded(x, i) => i <= |seen| && x !in seen
    case ScopeRemoved(x) => x in seen
    case ScopesReordered(t) => multiset(t) == multiset(seen)
  }

  ghost function Without(seen: seq<Scope>, x: Scope): seq<Scope>
    requires x in seen
  {
    var i :| 0 <= i < |seen| && seen[i] == x;
    RemoveAt(seen, i)
  }

  ghost function Follow(seen: seq<Scope>, e: Event): seq<Scope>
    requires Applicable(seen, e)
  {
    match e
    case ScopeAdded(x, i) => InsertAt(seen, i, x)
    case ScopeRemoved(x) => Without(seen, x)
    case ScopesReordered(t) => t
  }

  /** What a listener that holds `seen` holds after the events; None when it cannot follow them. */
  ghost function Replay(seen: seq<Scope>, events: seq<Event>): Option<seq<Scope>> {
    if events == [] then Some(seen) else
      var last := events[|events| - 1];
      match Replay(seen, events[..|events| - 1])
      case None => None
      case Some(held) => if Applicable(held, last) then Some(Follow(held, last)) else None
  }

  lemma ReplayOneMore(seen: seq<Scope>, events: seq<Event>, held: seq<Scope>, e: Event)
    requires Replay(seen, events) == Some(held) && Applicable(held, e)
    ensures Replay(seen, events + [e]) == Some(Follow(held, e))
  {
    assert (events + [e])[..|events|] == events;
  }

  /** A listener can start at any time, from the list of that time: it holds the same as one that has
      listened all along. */
  lemma {:induction false} ReplayFrom(seen: seq<Scope>, before: seq<Event>, held: seq<Scope>, more: seq<Event>)
    requires Replay(seen, before) == Some(held)
    ensures Replay(seen, before + more) == Replay(held, more)
    decreases |more|
  {
    hide Applicable, Follow;
    if more == [] {
      assert before + more == before;
    } else {
      ReplayFrom(seen, before, held, more[..|more| - 1]);
      assert (before + more)[..|before + more| - 1] == before + more[..|more| - 1];
    }
  }

  /** A listener that follows all events has followed every one of them. */
  lemma {:induction false} ReplayPrefix(seen: seq<Scope>, events: seq<Event>, k: nat)
    requires Replay(seen, events).Some? && k <= |events|
    ensures Replay(seen, events[..k]).Some?
    decreases |events|
  {
    if k < |events| {
      ReplayPrefix(seen, events[..|events| - 1], k);
      assert events[..|events| - 1][..k] == events[..k];
    } else {
      assert events[..k] == events;
    }
  }

  lemma WithoutAt(s: seq<Scope>, i: nat)
    requires DistinctIds(s) && i < |s|
    ensures Without(s, s[i]) == RemoveAt(s, i)
  {
  }

  lemma HasIdStep(s: seq<Scope>, i: nat, id: string)
    requires i < |s|
    ensures HasId(s[..i + 1], id) <==> HasId(s[..i], id) || id == s[i].id
  {
    assert s[..i + 1] == s[..i] + [s[i]];
    if HasId(s[..i], id) {
      var x :| x in s[..i] && x.id == id;
      assert x in s[..i + 1];
    }
    assert s[i] in s[..i + 1];
  }

  lemma InsertFacts(s: seq<Scope>, i: nat, x: Scope)
    requires i <= |s|
    ensures multiset(InsertAt(s, i, x)) == multiset(s) + multiset{x}
    ensures forall y :: y in InsertAt(s, i, x) ==> y in s || y == x
    ensures forall y :: y in s || y == x ==> y in InsertAt(s, i, x)
    ensures |InsertAt(s, i, x)| == |s| + 1
    ensures forall j | 0 <= j <= |s| :: InsertAt(s, i, x)[j] == if j < i then s[j] else if j == i then x else s[j - 1]
  {
    var t := InsertAt(s, i, x);
    assert s == s[..i] + s[i..];
    forall y | y in t ensures y in s || y == x {
      assert y in s[..i] || y == x || y in s[i..];
    }
    forall y | y in s || y == x ensures y in t {
      if y != x {
        assert y in s[..i] || y in s[i..];
      }
    }
  }

  lemma InsertDistinct(s: seq<Scope>, i: nat, x: Scope)
    requires i <= |s| && DistinctIds(s) && !HasId(s, x.id)
    ensures DistinctIds(InsertAt(s, i, x))
  {
    var t := InsertAt(s, i, x);
    forall j, k | 0 <= j < k < |t| ensures t[j].id != t[k].id {
      var j', k' := (if j > i then j - 1 else j), (if k > i then k - 1 else k);
      assert j != i ==> t[j] == s[j'] && s[j'] in s;
      assert k != i ==> t[k] == s[k'] && s[k'] in s;
    }
  }

  lemma RemovePlaces(s: seq<Scope>, i: nat)
    requires i < |s|
    ensures |RemoveAt(s, i)| == |s| - 1
    ensures forall j | 0 <= j < |s| - 1 :: RemoveAt(s, i)[j] == if j < i then s[j] else s[j + 1]
    ensures multiset(RemoveAt(s, i)) + multiset{s[i]} == multiset(s)
    ensures forall y :: y in s ==> y in RemoveAt(s, i) || y == s[i]
  {
    assert s == s[..i] + [s[i]] + s[i + 1..];
    forall y | y in s && y != s[i] ensures y in RemoveAt(s, i) {
      assert y in s[..i] || y in s[i + 1..];
    }
  }

  lemma RemoveFacts(s: seq<Scope>, i: nat)
    requires i < |s| && DistinctIds(s)
    ensures multiset(RemoveAt(s, i)) + multiset{s[i]} == multiset(s)
    ensures DistinctIds(RemoveAt(s, i)) && !HasId(RemoveAt(s, i), s[i].id)
    ensures forall y :: y in RemoveAt(s, i) <==> y in s && y != s[i]
    ensures |RemoveAt(s, i)| == |s| - 1
    ensures forall j | 0 <= j < |s| - 1 :: RemoveAt(s, i)[j] == if j < i then s[j] else s[j + 1]
  {
    RemovePlaces(s, i);
    var t := RemoveAt(s, i);
    forall j | 0 <= j < |t| ensures t[j] == (if j < i then s[j] else s[j + 1]) && t[j].id != s[i].id {
    }
  }

  /** The position that a search for the id yields is the only one. */
  lemma OnlyPosition(s: seq<Scope>, id: string, position: nat)
    requires DistinctIds(s) && position <= |s| && (position < |s| ==> s[position].id == id)
    requires forall i | 0 <= i < position :: s[i].id != id
    ensures position == |s| <==> !HasId(s, id)
    ensures forall p | 0 <= p < |s| && s[p].id == id :: p == position
  {
    assert position < |s| ==> s[position] in s;
  }

  /** Moving one scope permutes the list; the scopes that it passes shift by one place. */
  lemma MoveFacts(s: seq<Scope>, from: nat, to: nat)
    requires DistinctIds(s) && from < |s| && to < |s|
    ensures var t := InsertAt(RemoveAt(s, from), to, s[from]);
            && multiset(t) == multiset(s) && DistinctIds(t)
            && (forall x :: x in t ==> x in s) && (forall x :: x in s ==> x in t)
            && |t| == |s| && t[to] == s[from]
            && (forall j | 0 <= j < |s| && j != to ::
                  t[j] == if from <= j < to then s[j + 1] else if to < j <= from then s[j - 1] else s[j])
  {
    RemoveFacts(s, from);
    InsertFacts(RemoveAt(s, from), to, s[from]);
    InsertDistinct(RemoveAt(s, from), to, s[from]);
  }

  ghost predicate StartsWith(s: seq<Scope>, data: seq<ScopeData>) {
    |data| <= |s| && forall k | 0 <= k < |data| :: s[k].id == data[k].id
  }

  lemma StartIsShorter(s: seq<Scope>, data: seq<ScopeData>)
    requires StartsWith(s, data)
    ensures |data| <= |s|
  {
  }

  lemma NothingStarts(s: seq<Scope>, data: seq<ScopeData>)
    ensures StartsWith(s, data[..0])
  {
  }

  /** A list that starts with the first i scopes of the request starts with one more when the next one is
      moved or added to position i. */
  lemma MovedNext(s: seq<Scope>, p: nat, data: seq<ScopeData>, i: nat)
    requires i < |data| && p < |s| && DistinctData(data) && StartsWith(s, data[..i]) && s[p].id == data[i].id
    ensures i <= p && StartsWith(if p == i then s else InsertAt(RemoveAt(s, p), i, s[p]), data[..i + 1])
  {
    assert forall k | 0 <= k < i :: s[k].id == data[..i][k].id == data[k].id;
    var t := if p == i then s else InsertAt(RemoveAt(s, p), i, s[p]);
    assert forall k | 0 <= k < i :: t[k] == s[k];
  }

  lemma AddedNext(s: seq<Scope>, x: Scope, data: seq<ScopeData>, i: nat)
    requires i < |data| && StartsWith(s, data[..i]) && x.id == data[i].id
    ensures i <= |s| && StartsWith(InsertAt(s, i, x), data[..i + 1])
  {
    assert forall k | 0 <= k < i :: s[k].id == data[..i][k].id == data[k].id;
    assert forall k | 0 <= k < i :: InsertAt(s, i, x)[k] == s[k];
  }

  lemma AskedAll(data: seq<ScopeData>)
    ensures forall k | 0 <= k < |data| :: Asked(data, data[k].id)
  {
    forall k | 0 <= k < |data| ensures Asked(data, data[k].id) {
      assert data[k] in data;
    }
  }

  lemma StartIsKept(s: seq<Scope>, data: seq<ScopeData>, p: nat)
    requires StartsWith(s, data) && p < |s| && !Asked(data, s[p].id)
    ensures StartsWith(RemoveAt(s, p), data)
  {
    AskedAll(data);
  }

  /** A list of requested scopes that starts with all of the request is the request. */
  lemma StartIsAll(s: seq<Scope>, data: seq<ScopeData>)
    requires StartsWith(s, data) && DistinctIds(s) && forall x | x in s :: Asked(data, x.id)
    ensures |s| == |data|
  {
    if s != [] {
      var last := s[|s| - 1];
      assert last in s;
      var k :| 0 <= k < |data| && data[k].id == last.id;
      assert s[k].id == last.id;
    }
  }

  // ---------------------------------------------------------------------------------
  // The list

  class Scopes {
    const creatable: string -> bool      // for which data a scope can be created
    var scopes: seq<Scope>
    ghost var events: seq<Event>

    /** A listener that has started with the empty list holds the same list. */
    ghost predicate Valid()
      reads this
    {
      DistinctIds(scopes) && Replay([], events) == Some(scopes)
    }

    /** Every requested scope is there already or can be created. */
    ghost predicate Available(data: seq<ScopeData>)
      reads `scopes
    {
      forall d | d in data :: HasId(scopes, d.id) || creatable(d.id)
    }

    constructor (creatable: string -> bool)
      ensures Valid() && scopes == [] && events == [] && this.creatable == creatable
    {
      this.creatable := creatable;
      scopes, events := [], [];
    }

    // Before an event the listeners still hold the list as it was before the change.
    ghost method Emit(e: Event, held: seq<Scope>)
      requires Replay([], events) == Some(held) && Applicable(held, e)
      requires Follow(held, e) == scopes && DistinctIds(scopes)
      modifies `events
      ensures Valid() && events == old(events) + [e]
    {
      ReplayOneMore([], events, held, e);
      events := events + [e];
    }

    method CreateScope(data: ScopeData) returns (scope: Scope?)
      ensures scope != null <==> creatable(data.id)
      ensures scope != null ==> fresh(scope) && scope.id == data.id
    {
      if !creatable(data.id) {
        return null;
      }
      scope := new Scope(data.id);
    }

    method Find(id: string) returns (position: nat)
      ensures position <= |scopes|
      ensures position < |scopes| ==> scopes[position].id == id
      ensures forall i | 0 <= i < position :: scopes[i].id != id
    {
      position := 0;
      while position < |scopes| && scopes[position].id != id
        invariant position <= |scopes|
        invariant forall i | 0 <= i < position :: scopes[i].id != id
      {
        position := position + 1;
      }
    }

    method InsertScope(maybe: Option<ScopeData>, at: nat)
      requires Valid()
      modifies this
      ensures Valid()
      ensures maybe.None? ==> scopes == old(scopes) && events == old(events)
      ensures maybe.Some? ==>
                var index := if at < |old(scopes)| then at else |old(scopes)|;
                var id := maybe.value.id;
                && (forall i :: HasId(scopes, i) <==> HasId(old(scopes), i) || (i == id && creatable(id)))
                && (forall x | x in old(scopes) :: x in scopes)
                && (!HasId(old(scopes), id) && !creatable(id) ==> scopes == old(scopes) && events == old(events))
                && (!HasId(old(scopes), id) && creatable(id) ==>
                      && |scopes| == |old(scopes)| + 1 && fresh(scopes[index]) && scopes[index].id == id
                      && scopes == InsertAt(old(scopes), index, scopes[index])
                      && events == old(events) + [ScopeAdded(scopes[index], index)])
                && (forall p | 0 <= p < |old(scopes)| && old(scopes)[p].id == id ::
                      if p == index || index == |old(scopes)| then
                        scopes == old(scopes) && events == old(events)
                      else
                        && scopes == InsertAt(RemoveAt(old(scopes), p), index, old(scopes)[p])
                        && events == old(events) + [ScopesReordered(scopes)])
    {
      hide Replay, DistinctIds, HasId, InsertAt, RemoveAt;
      if maybe.None? {
        return;
      }
      var data := maybe.value;
      var index := if at < |scopes| then at else |scopes|;
      var position := Find(data.id);
      OnlyPosition(scopes, data.id, position);
      if position == |scopes| {
        AddScope(data, index);
      } else if position > index || (index > 0 && position < index && |scopes| > index) {
        MoveScope(position, index);
      }
    }

    // Creates the scope, if it can, and inserts it.
    method AddScope(data: ScopeData, index: nat)
      requires Valid() && index <= |scopes| && !HasId(scopes, data.id)
      modifies this
      ensures Valid()
      ensures !creatable(data.id) ==> scopes == old(scopes) && events == old(events)
      ensures creatable(data.id) ==>
                && |scopes| == |old(scopes)| + 1
                && fresh(scopes[index]) && scopes[index].id == data.id
                && scopes == InsertAt(old(scopes), index, scopes[index])
                && events == old(events) + [ScopeAdded(scopes[index], index)]
                && forall x :: x in scopes <==> x in old(scopes) || x == scopes[index]
      ensures forall i :: HasId(scopes, i) <==> HasId(old(scopes), i) || (i == data.id && creatable(i))
    {
      hide Replay;
      var scope := CreateScope(data);
      if scope != null {
        ghost var held := scopes;
        InsertFacts(scopes, index, scope);
        InsertDistinct(scopes, index, scope);
        scopes := InsertAt(scopes, index, scope);
        Emit(ScopeAdded(scope, index), held);
      }
    }

    // Erases the scope from its place and inserts it at another one.
    method MoveScope(position: nat, index: nat)
      requires Valid() && position < |scopes| && index < |scopes| && position != index
      modifies this
      ensures Valid() && scopes == InsertAt(RemoveAt(old(scopes), position), index, old(scopes)[position])
      ensures events == old(events) + [ScopesReordered(scopes)]
      ensures forall x :: x in scopes <==> x in old(scopes)
      ensures forall i :: HasId(scopes, i) <==> HasId(old(scopes), i)
    {
      hide Replay;
      var scope := scopes[position];
      ghost var held := scopes;
      MoveFacts(scopes, position, index);
      scopes := RemoveAt(scopes, position);
      scopes := InsertAt(scopes, index, scope);
      Emit(ScopesReordered(scopes), held);
    }

    method RemoveScope(id: string)
      requires Valid()
      modifies this
      ensures Valid()
      ensures !HasId(old(scopes), id) ==> scopes == old(scopes) && events == old(events)
      ensures forall p | 0 <= p < |old(scopes)| && old(scopes)[p].id == id ::
                scopes == RemoveAt(old(scopes), p) && events == old(events) + [ScopeRemoved(old(scopes)[p])]
    {
      hide Replay;
      var position := Find(id);
      if position < |scopes| {
        var scope := scopes[position];
        ghost var held := scopes;
        RemoveFacts(scopes, position);
        WithoutAt(scopes, position);
        scopes := RemoveAt(scopes, position);
        Emit(ScopeRemoved(scope), held);
      }
    }

    static method IsAsked(data: seq<ScopeData>, id: string) returns (found: bool)
      ensures found <==> Asked(data, id)
    {
      for i := 0 to |data|
        invariant !Asked(data[..i], id)
      {
        AskedStep(data, i, id);
        if data[i].id == id {
          return true;
        }
      }
      assert data[..|data|] == data;
      return false;
    }

    // One turn of the first loop: the i-th scope goes behind the i before it.
    method InsertRequested(data: seq<ScopeData>, i: nat)
      requires Valid() && i < |data|
      modifies this
      ensures Valid() && old(events) <= events
      ensures forall id :: HasId(scopes, id) <==> HasId(old(scopes), id) || (id == data[i].id && creatable(id))
      ensures forall x | x in old(scopes) :: x in scopes
      ensures DistinctData(data) && StartsWith(old(scopes), data[..i]) && HasId(scopes, data[i].id) ==>
                StartsWith(scopes, data[..i + 1])
    {
      hide Replay, StartsWith, InsertAt, RemoveAt, DistinctIds;
      ghost var before := scopes;
      InsertScope(Some(data[i]), i);
      if DistinctData(data) && StartsWith(before, data[..i]) && HasId(scopes, data[i].id) {
        if HasId(before, data[i].id) {
          ghost var p :| 0 <= p < |before| && before[p].id == data[i].id;
          MovedNext(before, p, data, i);
        } else {
          StartIsShorter(before, data[..i]);
          AddedNext(before, scopes[i], data, i);
        }
      }
    }

    // First loop of an update: every requested scope is created or moved to its place.
    method InsertAll(data: seq<ScopeData>)
      requires Valid()
      modifies this
      ensures Valid() && old(events) <= events
      ensures forall id :: HasId(scopes, id) <==> HasId(old(scopes), id) || (Asked(data, id) && creatable(id))
      ensures forall x | x in old(scopes) :: x in scopes
      ensures DistinctData(data) && old(Available(data)) ==> StartsWith(scopes, data)
    {
      hide Replay, StartsWith, DistinctIds;
      NothingStarts(scopes, data);
      for i := 0 to |data|
        invariant Valid() && old(events) <= events
        invariant forall id :: HasId(scopes, id) <==> HasId(old(scopes), id) || (Asked(data[..i], id) && creatable(id))
        invariant forall x | x in old(scopes) :: x in scopes
        invariant DistinctData(data) && old(Available(data)) ==> StartsWith(scopes, data[..i])
      {
        forall id ensures Asked(data[..i + 1], id) <==> Asked(data[..i], id) || id == data[i].id {
          AskedStep(data, i, id);
        }
        assert data[i] in data;
        InsertRequested(data, i);
      }
      assert data[..|data|] == data;
    }

    method StaleIds(data: seq<ScopeData>) returns (stale: seq<string>)
      ensures forall id :: id in stale <==> HasId(scopes, id) && !Asked(data, id)
    {
      stale := [];
      for j := 0 to |scopes|
        invariant forall id :: id in stale <==> HasId(scopes[..j], id) && !Asked(data, id)
      {
        var asked := IsAsked(data, scopes[j].id);
        assert scopes[..j + 1] == scopes[..j] + [scopes[j]];
        forall id ensures HasId(scopes[..j + 1], id) <==> HasId(scopes[..j], id) || id == scopes[j].id {
          HasIdStep(scopes, j, id);
        }
        if !asked {
          stale := stale + [scopes[j].id];
        }
      }
      assert scopes[..|scopes|] == scopes;
    }

    // Last loop of an update; removing ids that are not requested never moves a requested prefix.
    method RemoveAll(stale: seq<string>, ghost data: seq<ScopeData>)
      requires Valid() && forall id | id in stale :: !Asked(data, id)
      modifies this
      ensures Valid() && old(events) <= events
      ensures forall x :: x in scopes <==> x in old(scopes) && x.id !in stale
      ensures StartsWith(old(scopes), data) ==> StartsWith(scopes, data)
    {
      hide Replay;
      for r := 0 to |stale|
        invariant Valid() && old(events) <= events
        invariant forall x :: x in scopes <==> x in old(scopes) && x.id !in stale[..r]
        invariant StartsWith(old(scopes), data) ==> StartsWith(scopes, data)
      {
        assert stale[..r + 1] == stale[..r] + [stale[r]];
        ghost var before := scopes;
        RemoveScope(stale[r]);
        if HasId(before, stale[r]) {
          ghost var p :| 0 <= p < |before| && before[p].id == stale[r];
          RemoveFacts(before, p);
          if StartsWith(before, data) {
            StartIsKept(before, data, p);
          }
        }
      }
      assert stale[..|stale|] == stale;
    }

    method UpdateScopes(data: seq<ScopeData>)
      requires Valid()
      modifies this
      ensures Valid() && old(events) <= events
      ensures Replay(old(scopes), events[|old(events)|..]) == Some(scopes)
      ensures forall id :: HasId(scopes, id) <==> Asked(data, id) && (HasId(old(scopes), id) || creatable(id))
      ensures forall x | x in old(scopes) :: x in scopes <==> Asked(data, x.id)
      ensures DistinctData(data) && old(Available(data)) ==>
                |scopes| == |data| && forall k | 0 <= k < |data| :: scopes[k].id == data[k].id
    {
      hide Replay;
      InsertAll(data);
      ghost var all := scopes;
      var stale := StaleIds(data);
      RemoveAll(stale, data);
      forall x ensures x in scopes <==> x in all && Asked(data, x.id) {
      }
      if DistinctData(data) && old(Available(data)) {
        StartIsAll(scopes, data);
      }
      assert events == old(events) + events[|old(events)|..];
      ReplayFrom([], old(events), old(scopes), events[|old(events)|..]);
    }
  }
}
