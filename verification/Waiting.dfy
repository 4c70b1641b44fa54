/** A request that cannot be sent yet waits for a connection signal or for a timeout, whichever comes
    first. The D-Bus proxy and the scope proxy share the scheme (WaitForProxy in
    UnityCore/GLibDBusProxy.cpp, WaitForProxyConnection in UnityCore/ScopeProxy.cpp). */
module Waiting {

  /** What can cancel a request: the owner's cancellable of some generation, or the caller's. */
  datatype Token = Own(generation: nat) | User(number: nat)

  datatype Kind = Search | Activate | Call

  /** A waiting request: its timer, its slot on the connection signal, and what has come of it. */
  datatype Waiter = Waiter(kind: Kind, token: Token, timer: bool, slot: bool, issued: nat, timedOut: nat)

  function NewWaiter(kind: Kind, token: Token): Waiter {
    Waiter(kind, token, true, true, 0, 0)
  }

  predicate IsLive(w: Waiter) {
    w.timer && w.slot && w.issued == 0 && w.timedOut == 0
  }

  /** Neither its timer nor its slot is left, and it was answered at most once. */
  predicate IsSettled(w: Waiter) {
    !w.timer && !w.slot && w.issued + w.timedOut <= 1
  }

  /** The slot runs: the callback issues the call unless the request was cancelled. */
  function Signalled(w: Waiter, cancelled: set<Token>): Waiter {
    if !w.slot then w
    else w.(timer := false, slot := false, issued := w.issued + if w.token in cancelled then 0 else 1)
  }

  /** The timer runs: the callback gets the timeout error unless the request was cancelled. */
  function TimedOut(w: Waiter, cancelled: set<Token>): Waiter {
    if !w.timer then w
    else w.(timer := false, slot := false, timedOut := w.timedOut + if w.token in cancelled then 0 else 1)
  }

  /** A live request ends in exactly one way, at the first of signal and timer: it is answered once,
      or not at all when it has been cancelled by then. */
  lemma EndsOnce(w: Waiter, cancelled: set<Token>)
    requires IsLive(w)
    ensures IsSettled(Signalled(w, cancelled)) && IsSettled(TimedOut(w, cancelled))
    ensures Signalled(w, cancelled).issued == (if w.token in cancelled then 0 else 1)
    ensures Signalled(w, cancelled).timedOut == 0
    ensures TimedOut(w, cancelled).timedOut == (if w.token in cancelled then 0 else 1)
    ensures TimedOut(w, cancelled).issued == 0
  {
  }

  /** A settled request is out of reach of both. */
  lemma SettledStays(w: Waiter, cancelled: set<Token>)
    requires IsSettled(w)
    ensures Signalled(w, cancelled) == w && TimedOut(w, cancelled) == w
  {
  }

  // ---------------------------------------------------------------------------------
  // All requests of one owner

  /** The requests after the first k slots have run. */
  function SlotsRun(ws: seq<Waiter>, cancelled: set<Token>, k: nat): seq<Waiter>
    requires k <= |ws|
  {
    seq(|ws|, i requires 0 <= i < |ws| => if i < k then Signalled(ws[i], cancelled) else ws[i])
  }

  /** Its slot is there and lets the callback through. */
  predicate Passes(w: Waiter, cancelled: set<Token>) {
    w.slot && w.token !in cancelled
  }

  /** The requests whose callback the first k slots have let through, in order. */
  function Issued(ws: seq<Waiter>, cancelled: set<Token>, k: nat): seq<nat>
    requires k <= |ws|
  {
    if k == 0 then [] else
      Issued(ws, cancelled, k - 1) + if Passes(ws[k - 1], cancelled) then [k - 1] else []
  }

  lemma OneMore(s: seq<nat>, x: nat, i: int)
    ensures s + [] == s && multiset(s + [x])[i] == multiset(s)[i] + if i == x then 1 else 0
  {
  }

  lemma IssuedStep(ws: seq<Waiter>, cancelled: set<Token>, k: nat)
    requires k < |ws|
    ensures Issued(ws, cancelled, k + 1) ==
            Issued(ws, cancelled, k) + if Passes(ws[k], cancelled) then [k] else []
  {
  }

  lemma IssuedNone(ws: seq<Waiter>, cancelled: set<Token>)
    ensures Issued(ws, cancelled, 0) == []
  {
  }

  lemma {:induction false} IssuedOnce(ws: seq<Waiter>, cancelled: set<Token>, k: nat, i: int)
    requires k <= |ws|
    ensures multiset(Issued(ws, cancelled, k))[i] == if 0 <= i < k && Passes(ws[i], cancelled) then 1 else 0
    decreases k
  {
    hide Passes, Issued;
    if k == 0 {
      IssuedNone(ws, cancelled);
    } else {
      IssuedOnce(ws, cancelled, k - 1, i);
      IssuedStep(ws, cancelled, k - 1);
      OneMore(Issued(ws, cancelled, k - 1), k - 1, i);
    }
  }

  /** They are exactly the requests that count one issue more than before. */
  lemma IssuedCounts(ws: seq<Waiter>, cancelled: set<Token>)
    ensures forall i :: multiset(Issued(ws, cancelled, |ws|))[i] ==
                          if 0 <= i < |ws| then SlotsRun(ws, cancelled, |ws|)[i].issued - ws[i].issued else 0
  {
    hide Issued;
    forall i ensures multiset(Issued(ws, cancelled, |ws|))[i] ==
                       if 0 <= i < |ws| && Passes(ws[i], cancelled) then 1 else 0 {
      IssuedOnce(ws, cancelled, |ws|, i);
    }
  }

  /** Callbacks are let through in the order in which the requests were made. */
  lemma {:induction false} IssuedInOrder(ws: seq<Waiter>, cancelled: set<Token>, k: nat)
    requires k <= |ws|
    ensures forall a, b | 0 <= a < b < |Issued(ws, cancelled, k)| ::
              Issued(ws, cancelled, k)[a] < Issued(ws, cancelled, k)[b]
    ensures forall a | 0 <= a < |Issued(ws, cancelled, k)| :: Issued(ws, cancelled, k)[a] < k
    decreases k
  {
    if k > 0 {
      IssuedInOrder(ws, cancelled, k - 1);
    }
  }

  // ---------------------------------------------------------------------------------
  // Whole runs

  /** What one step of a run does to the requests. */
  datatype Turn =
    | Idle
    | Slots(cancelled: set<Token>)
    | Timer(i: nat, cancelled: set<Token>)
    | Joined(w: Waiter)

  function Played(ws: seq<Waiter>, t: Turn): seq<Waiter> {
    match t
    case Idle => ws
    case Slots(cancelled) => SlotsRun(ws, cancelled, |ws|)
    case Timer(i, cancelled) => if i < |ws| then ws[i := TimedOut(ws[i], cancelled)] else ws
    case Joined(w) => ws + [w]
  }

  /** The turn ends the wait of the i-th request. */
  predicate Ends(t: Turn, i: nat) {
    t.Slots? || (t.Timer? && t.i == i)
  }

  function Ended(w: Waiter, t: Turn): Waiter {
    match t
    case Slots(cancelled) => Signalled(w, cancelled)
    case Timer(_, cancelled) => TimedOut(w, cancelled)
    case _ => w
  }

  lemma PlayedOne(ws: seq<Waiter>, t: Turn, i: nat)
    requires i < |ws|
    ensures i < |Played(ws, t)| && Played(ws, t)[i] == if Ends(t, i) then Ended(ws[i], t) else ws[i]
  {
  }

  /** wss[k] are the requests before the k-th turn. */
  ghost predicate IsHistory(wss: seq<seq<Waiter>>, turns: seq<Turn>) {
    |wss| == |turns| + 1 && forall k | 0 <= k < |turns| :: wss[k + 1] == Played(wss[k], turns[k])
  }

  lemma {:induction false} SettledForever(wss: seq<seq<Waiter>>, turns: seq<Turn>, p: nat, q: nat, i: nat)
    requires IsHistory(wss, turns) && p <= q <= |turns| && i < |wss[p]| && IsSettled(wss[p][i])
    ensures i < |wss[q]| && wss[q][i] == wss[p][i]
    decreases q
  {
    hide Played, IsSettled;
    if p < q {
      SettledForever(wss, turns, p, q - 1, i);
      PlayedOne(wss[q - 1], turns[q - 1], i);
      if Ends(turns[q - 1], i) {
        SettledStays(wss[p][i], turns[q - 1].cancelled);
      }
    }
  }

  lemma {:induction false} WaitsOn(wss: seq<seq<Waiter>>, turns: seq<Turn>, p: nat, q: nat, i: nat)
    requires IsHistory(wss, turns) && p <= q <= |turns| && i < |wss[p]| && forall k | p <= k < q :: !Ends(turns[k], i)
    ensures i < |wss[q]| && wss[q][i] == wss[p][i]
    decreases q
  {
    hide Played, Ends;
    if p < q {
      WaitsOn(wss, turns, p, q - 1, i);
      PlayedOne(wss[q - 1], turns[q - 1], i);
    }
  }

  /** The first turn r that can end the wait of a request that is live at p does so, with exactly one
      answer or, when the request had been cancelled by then, none. Nothing about the request changes
      before or after, whatever happens to the others. */
  lemma FirstTurnEnds(wss: seq<seq<Waiter>>, turns: seq<Turn>, p: nat, r: nat, q: nat, i: nat)
    requires IsHistory(wss, turns) && p <= r < |turns| && p <= q <= |turns|
    requires i < |wss[p]| && IsLive(wss[p][i])
    requires Ends(turns[r], i) && forall k | p <= k < r :: !Ends(turns[k], i)
    ensures i < |wss[q]|
    ensures q <= r ==> wss[q][i] == wss[p][i]
    ensures q > r ==> wss[q][i] == Ended(wss[p][i], turns[r]) && IsSettled(wss[q][i])
    ensures q > r ==> wss[q][i].issued + wss[q][i].timedOut == if wss[p][i].token in turns[r].cancelled then 0 else 1
  {
    hide Played, Signalled, TimedOut, IsLive, IsSettled;
    WaitsOn(wss, turns, p, if q <= r then q else r, i);
    if q > r {
      PlayedOne(wss[r], turns[r], i);
      EndsOnce(wss[p][i], turns[r].cancelled);
      SettledForever(wss, turns, r + 1, q, i);
    }
  }
}
