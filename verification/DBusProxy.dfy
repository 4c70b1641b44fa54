/** A proxy for a bus name: bounded reconnection, the connected and disconnected signals, and calls
    that wait for the proxy (UnityCore/GLibDBusProxy.cpp). */
module DBusProxy {
  import opened Waiting

  const MAX_RECONNECTION_ATTEMPTS := 5

  /** How an attempt to create the remote proxy ends. */
  datatype Outcome =
    | Created(hasOwner: bool)
    | Failed
    | Cancelled
    | Nothing                      // neither a proxy nor an error

  datatype Happening =
    | ConnectReply(outcome: Outcome)
    | RetryFires
    | OwnerChanged(hasOwner: bool)
    | CallRequested(token: Token)
    | TimerFires(i: nat)
    | CancelRequested(token: Token)

  datatype State = State(
    attempting: nat,               // outstanding attempts
    retryTimer: bool,
    attempts: nat,                 // reconnection_attempts_
    made: nat,                     // attempts made so far, over the whole life
    hasProxy: bool,
    acquired: nat,                 // how often a success was processed
    connected: bool,
    emissions: seq<bool>,          // connected (true) and disconnected (false) signals
    waiters: seq<Waiter>,
    cancelled: set<Token>,
    calls: seq<nat>)               // the requests whose remote call was made, in order

  const START := State(1, false, 0, 1, false, 0, false, [], [], {}, [])

  // ---------------------------------------------------------------------------------
  // The handlers as functions

  function Connect(s: State): State {
    s.(attempting := s.attempting + 1, made := s.made + 1)
  }

  function SetConnected(s: State, value: bool): State {
    s.(connected := value, emissions := s.emissions + [value])
  }

  /** The proxy_acquired signal runs every slot. */
  function Acquired(s: State): State {
    s.(waiters := SlotsRun(s.waiters, s.cancelled, |s.waiters|),
       calls := s.calls + Issued(s.waiters, s.cancelled, |s.waiters|))
  }

  function OnConnected(s: State, hasOwner: bool): State {
    var s1 := s.(attempts := 0, hasProxy := true, acquired := s.acquired + 1);
    var s2 := if hasOwner then SetConnected(s1, true) else s1;
    Acquired(s2)
  }

  function OnFailed(s: State): State {
    s.(retryTimer := s.retryTimer || s.attempts < MAX_RECONNECTION_ATTEMPTS, attempts := s.attempts + 1)
  }

  function OnReply(s: State, outcome: Outcome): State
    requires s.attempting > 0
  {
    var s1 := s.(attempting := s.attempting - 1);
    match outcome
    case Created(hasOwner) => OnConnected(s1, hasOwner)
    case Failed => OnFailed(s1)
    case Cancelled => s1
    case Nothing => s1
  }

  function OnRetry(s: State): State {
    var s1 := s.(retryTimer := false);
    if s.hasProxy then s1 else Connect(s1)
  }

  function OnOwnerChanged(s: State, hasOwner: bool): State {
    if hasOwner != s.connected then SetConnected(s, hasOwner) else s
  }

  function OnCall(s: State, token: Token): State {
    if s.hasProxy then
      s.(waiters := s.waiters + [Waiter(Call, token, false, false, 1, 0)], calls := s.calls + [|s.waiters|])
    else
      s.(waiters := s.waiters + [NewWaiter(Call, token)])
  }

  function OnTimer(s: State, i: nat): State
    requires i < |s.waiters|
  {
    s.(waiters := s.waiters[i := TimedOut(s.waiters[i], s.cancelled)])
  }

  predicate Enabled(s: State, h: Happening) {
    match h
    case ConnectReply(_) => s.attempting > 0
    case RetryFires => s.retryTimer
    case OwnerChanged(_) => s.hasProxy
    case CallRequested(_) => true
    case TimerFires(i) => i < |s.waiters| && s.waiters[i].timer
    case CancelRequested(_) => true
  }

  function Step(s: State, h: Happening): State
    requires Enabled(s, h)
  {
    match h
    case ConnectReply(outcome) => OnReply(s, outcome)
    case RetryFires => OnRetry(s)
    case OwnerChanged(hasOwner) => OnOwnerChanged(s, hasOwner)
    case CallRequested(token) => OnCall(s, token)
    case TimerFires(i) => OnTimer(s, i)
    case CancelRequested(token) => s.(cancelled := s.cancelled + {token})
  }

  // ---------------------------------------------------------------------------------
  // The object

  class Proxy {
    ghost var attempting: nat
    var retryTimer: bool
    var attempts: nat
    ghost var made: nat
    var hasProxy: bool
    ghost var acquired: nat
    var connected: bool
    ghost var emissions: seq<bool>
    var waiters: seq<Waiter>
    var cancelled: set<Token>
    ghost var calls: seq<nat>

    ghost function Now(): State
      reads this
    {
      State(attempting, retryTimer, attempts, made, hasProxy, acquired, connected, emissions, waiters, cancelled, calls)
    }

    constructor ()
      ensures Now() == START
    {
      attempting, retryTimer, attempts, made, hasProxy, acquired := 0, false, 0, 0, false, 0;
      connected, emissions, waiters, cancelled, calls := false, [], [], {}, [];
      new;
      ConnectToBus();
    }

    method ConnectToBus()
      modifies this
      ensures Now() == Connect(old(Now()))
    {
      attempting, made := attempting + 1, made + 1;
    }

    method OnProxyConnectCallback(outcome: Outcome)
      requires attempting > 0
      modifies this
      ensures Now() == OnReply(old(Now()), outcome)
    {
      hide Acquired;
      attempting := attempting - 1;
      if !outcome.Created? {
        if outcome == Failed {
          var before := attempts;
          attempts := attempts + 1;
          if before < MAX_RECONNECTION_ATTEMPTS {
            retryTimer := true;
          }
        }
        return;
      }
      attempts := 0;
      hasProxy := true;
      acquired := acquired + 1;
      if outcome.hasOwner {
        connected := true;
        emissions := emissions + [true];
      }
      EmitProxyAcquired();
    }

    method EmitProxyAcquired()
      modifies `waiters, `calls
      ensures Now() == Acquired(old(Now()))
    {
      ghost var ws, sent := waiters, calls;
      for i := 0 to |waiters|
        invariant |waiters| == |ws| && waiters == SlotsRun(ws, cancelled, i)
        invariant calls == sent + Issued(ws, cancelled, i)
      {
        var w := waiters[i];
        if w.slot {
          if w.token !in cancelled {
            calls := calls + [i];
            w := w.(issued := w.issued + 1);
          }
          waiters := waiters[i := w.(timer := false, slot := false)];
        }
        assert calls == sent + Issued(ws, cancelled, i + 1);
      }
    }

    method OnReconnectionTimeout()
      requires retryTimer
      modifies this
      ensures Now() == OnRetry(old(Now()))
    {
      retryTimer := false;
      if !hasProxy {
        ConnectToBus();
      }
    }

    method OnProxyNameOwnerChanged(nameOwner: bool)
      modifies this
      ensures Now() == OnOwnerChanged(old(Now()), nameOwner)
    {
      if nameOwner {
        if !connected {
          connected := true;
          emissions := emissions + [true];
        }
      } else if connected {
        connected := false;
        emissions := emissions + [false];
      }
    }

    method Call(token: Token)
      modifies this
      ensures Now() == OnCall(old(Now()), token)
    {
      if !hasProxy {
        waiters := waiters + [NewWaiter(Kind.Call, token)];
        return;
      }
      calls := calls + [|waiters|];
      waiters := waiters + [Waiter(Kind.Call, token, false, false, 1, 0)];
    }

    method OnWaitTimeout(i: nat)
      requires i < |waiters| && waiters[i].timer
      modifies this
      ensures Now() == OnTimer(old(Now()), i)
    {
      var w := waiters[i];
      if w.token !in cancelled {
        w := w.(timedOut := w.timedOut + 1);
      }
      waiters := waiters[i := w.(timer := false, slot := false)];
    }
  }

  // ---------------------------------------------------------------------------------
  // Whole runs

  ghost predicate IsRun(ss: seq<State>, hs: seq<Happening>) {
    && |ss| == |hs| + 1
    && ss[0] == START
    && forall i | 0 <= i < |hs| :: Enabled(ss[i], hs[i]) && ss[i + 1] == Step(ss[i], hs[i])
  }

  predicate Alternates(emissions: seq<bool>) {
    forall k | 0 <= k < |emissions| :: emissions[k] == (k % 2 == 0)
  }

  function Pending(s: State): nat {
    s.attempting + if s.retryTimer then 1 else 0
  }

  ghost predicate Inv(s: State) {
    // One attempt or one retry timer at a time, none after a success, and a bounded number in all.
    && Pending(s) <= 1
    && (s.hasProxy ==> Pending(s) == 0 && s.acquired == 1)
    && (!s.hasProxy ==> s.acquired == 0 && !s.connected)
    && s.made <= 1 + MAX_RECONNECTION_ATTEMPTS
    && (!s.hasProxy ==> s.made + (if s.retryTimer then 1 else 0) <= 1 + s.attempts)
    && (s.retryTimer ==> s.made <= MAX_RECONNECTION_ATTEMPTS)
    // The signals alternate, starting with connected, and the flag matches the last one.
    && Alternates(s.emissions)
    && s.connected == (|s.emissions| % 2 == 1)
    // Every request is live or settled, and none waits once there is a proxy.
    && (forall i | 0 <= i < |s.waiters| :: IsLive(s.waiters[i]) || IsSettled(s.waiters[i]))
    && (s.hasProxy ==> forall i | 0 <= i < |s.waiters| :: IsSettled(s.waiters[i]))
    && CallsMatch(s)
  }

  /** The remote calls made are the issued requests, each as often as it was issued. */
  ghost predicate CallsMatch(s: State) {
    forall i :: multiset(s.calls)[i] == if 0 <= i < |s.waiters| then s.waiters[i].issued else 0
  }

  lemma AcquiredKeepsMatch(s: State)
    requires CallsMatch(s)
    ensures CallsMatch(Acquired(s))
  {
    var t, n := Acquired(s), |s.waiters|;
    hide Issued;
    IssuedCounts(s.waiters, s.cancelled);
    forall i ensures multiset(t.calls)[i] == if 0 <= i < n then t.waiters[i].issued else 0 {
      assert multiset(t.calls)[i] == multiset(s.calls)[i] + multiset(Issued(s.waiters, s.cancelled, n))[i];
    }
  }

  lemma SuccessKeepsInv(s: State, hasOwner: bool)
    requires Inv(s) && s.attempting > 0
    ensures Inv(OnReply(s, Created(hasOwner)))
  {
    hide CallsMatch, Issued;
    var s1 := s.(attempting := s.attempting - 1, attempts := 0, hasProxy := true, acquired := s.acquired + 1);
    var s2 := if hasOwner then SetConnected(s1, true) else s1;
    CallsMatchDepends(s, s2);
    AcquiredKeepsMatch(s2);
  }

  lemma CallsMatchDepends(s: State, t: State)
    requires CallsMatch(s) && t.calls == s.calls && t.waiters == s.waiters
    ensures CallsMatch(t)
  {
  }

  lemma CallKeepsInv(s: State, token: Token)
    requires Inv(s)
    ensures Inv(OnCall(s, token))
  {
    var t := OnCall(s, token);
    assert t.waiters[..|s.waiters|] == s.waiters;
  }

  lemma TimerKeepsInv(s: State, i: nat)
    requires Inv(s) && i < |s.waiters|
    ensures Inv(OnTimer(s, i))
  {
  }

  lemma StepKeepsInv(s: State, h: Happening)
    requires Inv(s) && Enabled(s, h)
    ensures Inv(Step(s, h))
  {
    hide CallsMatch, OnConnected, OnCall, OnTimer, IsLive, IsSettled;
    match h
    case ConnectReply(Created(hasOwner)) => SuccessKeepsInv(s, hasOwner);
    case CallRequested(token) => CallKeepsInv(s, token);
    case TimerFires(i) => TimerKeepsInv(s, i);
    case _ => CallsMatchDepends(s, Step(s, h));
  }

  /** In every run, at every point: bounded attempts, alternating signals, settled requests. */
  lemma {:induction false} RunKeepsInv(ss: seq<State>, hs: seq<Happening>, k: nat)
    requires IsRun(ss, hs) && k <= |hs|
    ensures Inv(ss[k])
  {
    if k > 0 {
      RunKeepsInv(ss, hs, k - 1);
      StepKeepsInv(ss[k - 1], hs[k - 1]);
    }
  }

  /** What the invariant says of every point of every run: one attempt or retry timer at a time, at most
      1 + 5 attempts ever, one processed success, signals that strictly alternate starting with
      connected and agree with IsConnected, and for each request at most one of a remote call and a timeout. */
  lemma RunIsBounded(ss: seq<State>, hs: seq<Happening>, k: nat)
    requires IsRun(ss, hs) && k <= |hs|
    ensures ss[k].attempting + (if ss[k].retryTimer then 1 else 0) <= 1
    ensures ss[k].made <= 1 + MAX_RECONNECTION_ATTEMPTS
    ensures ss[k].acquired == if ss[k].hasProxy then 1 else 0
    ensures ss[k].emissions != [] ==> ss[k].emissions[0]
    ensures forall i | 0 < i < |ss[k].emissions| :: ss[k].emissions[i] == !ss[k].emissions[i - 1]
    ensures ss[k].connected <==> ss[k].emissions != [] && ss[k].emissions[|ss[k].emissions| - 1]
    ensures forall i | 0 <= i < |ss[k].waiters| ::
              && multiset(ss[k].calls)[i] == ss[k].waiters[i].issued
              && ss[k].waiters[i].issued + ss[k].waiters[i].timedOut <= 1
  {
    RunKeepsInv(ss, hs, k);
  }

  /** What ends the wait of the i-th request. */
  predicate EndsWait(h: Happening, i: nat) {
    h == TimerFires(i) || (h.ConnectReply? && h.outcome.Created?)
  }

  /** What the step from s by h does to the requests. */
  function TurnOf(s: State, h: Happening): Turn {
    match h
    case ConnectReply(Created(_)) => Slots(s.cancelled)
    case CallRequested(token) =>
      Joined(if s.hasProxy then Waiter(Call, token, false, false, 1, 0) else Waiter(Call, token, true, true, 0, 0))
    case TimerFires(i) => Timer(i, s.cancelled)
    case _ => Idle
  }

  lemma StepPlaysTurn(s: State, h: Happening)
    requires Enabled(s, h)
    ensures Step(s, h).waiters == Played(s.waiters, TurnOf(s, h))
  {
  }

  /** Every call that waits at p, in every run: the first happening r that can end its wait
      does, with exactly one answer or, when it had been cancelled by then, none; at no point q before
      and at no point q after does anything about it change, and neither timer nor slot is left. */
  lemma RequestEndsOnce(ss: seq<State>, hs: seq<Happening>, p: nat, r: nat, q: nat, i: nat)
    requires IsRun(ss, hs) && p <= r < |hs| && p <= q <= |hs| && i < |ss[p].waiters| && IsLive(ss[p].waiters[i])
    requires EndsWait(hs[r], i) && forall k | p <= k < r :: !EndsWait(hs[k], i)
    ensures i < |ss[q].waiters|
    ensures q <= r ==> ss[q].waiters[i] == ss[p].waiters[i]
    ensures q > r ==>
              && ss[q].waiters[i] == Ended(ss[p].waiters[i], TurnOf(ss[r], hs[r]))
              && IsSettled(ss[q].waiters[i])
              && ss[q].waiters[i].issued + ss[q].waiters[i].timedOut ==
                   if ss[p].waiters[i].token in ss[r].cancelled then 0 else 1
  {
    hide Step, Enabled, Played, IsLive, IsSettled;
    var wss := seq(|ss|, k requires 0 <= k < |ss| => ss[k].waiters);
    var turns := seq(|hs|, k requires 0 <= k < |hs| => TurnOf(ss[k], hs[k]));
    forall k | 0 <= k < |hs| ensures wss[k + 1] == Played(wss[k], turns[k]) {
      StepPlaysTurn(ss[k], hs[k]);
    }
    FirstTurnEnds(wss, turns, p, r, q, i);
  }

  /** A cancellable is cancelled exactly when that was asked for. */
  ghost predicate Canceled(hs: seq<Happening>, k: nat, token: Token)
    requires k <= |hs|
  {
    exists j | 0 <= j < k :: hs[j] == CancelRequested(token)
  }

  lemma CanceledStep(hs: seq<Happening>, k: nat, token: Token)
    requires k < |hs|
    ensures Canceled(hs, k + 1, token) <==> Canceled(hs, k, token) || hs[k] == CancelRequested(token)
  {
  }

  lemma StepCancels(s: State, h: Happening, token: Token)
    requires Enabled(s, h)
    ensures token in Step(s, h).cancelled <==> token in s.cancelled || h == CancelRequested(token)
  {
  }

  lemma {:induction false} CancelledIff(ss: seq<State>, hs: seq<Happening>, k: nat, token: Token)
    requires IsRun(ss, hs) && k <= |hs|
    ensures token in ss[k].cancelled <==> Canceled(hs, k, token)
  {
    hide Step, Enabled;
    if k > 0 {
      CancelledIff(ss, hs, k - 1, token);
      CanceledStep(hs, k - 1, token);
      StepCancels(ss[k - 1], hs[k - 1], token);
    }
  }

  /** A call that is made at p without a proxy, said of the happenings alone: if its first end r is a success
      it is made then, if it is its timer it is timed out then, unless its own cancellable was cancelled
      before; and nothing more comes of it. */
  lemma CallIsAnswered(ss: seq<State>, hs: seq<Happening>, p: nat, r: nat, q: nat, token: Token)
    requires IsRun(ss, hs) && p < r < q <= |hs| && hs[p] == CallRequested(token) && !ss[p].hasProxy
    requires EndsWait(hs[r], |ss[p].waiters|) && forall k | p < k < r :: !EndsWait(hs[k], |ss[p].waiters|)
    ensures |ss[p].waiters| < |ss[q].waiters|
    ensures var w := ss[q].waiters[|ss[p].waiters|];
            && w.issued == (if hs[r].ConnectReply? && !Canceled(hs, r, token) then 1 else 0)
            && w.timedOut == (if hs[r].TimerFires? && !Canceled(hs, r, token) then 1 else 0)
  {
    hide Step, Enabled, Canceled;
    StepPlaysTurn(ss[p], hs[p]);
    RequestEndsOnce(ss, hs, p + 1, r, q, |ss[p].waiters|);
    CancelledIff(ss, hs, r, token);
  }

  // ---------------------------------------------------------------------------------
  // How long the proxy keeps trying

  /** The failed attempts among the first k happenings. */
  function Failures(hs: seq<Happening>, k: nat): nat
    requires k <= |hs|
  {
    if k == 0 then 0 else Failures(hs, k - 1) + if hs[k - 1] == ConnectReply(Failed) then 1 else 0
  }

  /** An attempt has ended without a proxy and without an error to react to. */
  ghost predicate Abandoned(hs: seq<Happening>, k: nat)
    requires k <= |hs|
  {
    exists i | 0 <= i < k :: hs[i] == ConnectReply(Cancelled) || hs[i] == ConnectReply(Nothing)
  }

  lemma AbandonedStep(hs: seq<Happening>, k: nat)
    requires k < |hs|
    ensures Abandoned(hs, k + 1) <==>
              Abandoned(hs, k) || hs[k] == ConnectReply(Cancelled) || hs[k] == ConnectReply(Nothing)
  {
  }

  /** Each of the first five failures starts the retry timer; the sixth does not. */
  lemma FailureRetries(s: State)
    requires s.attempting > 0 && !s.retryTimer
    ensures var t := Step(s, ConnectReply(Failed));
            && t.attempting == s.attempting - 1 && t.attempts == s.attempts + 1 && t.hasProxy == s.hasProxy
            && (t.retryTimer <==> s.attempts < 5)
  {
  }

  /** The timer makes one more attempt while there is no proxy. */
  lemma TimerConnects(s: State)
    requires s.retryTimer
    ensures var t := Step(s, RetryFires);
            && !t.retryTimer
            && t.attempting == s.attempting + (if s.hasProxy then 0 else 1)
            && t.made == s.made + if s.hasProxy then 0 else 1
  {
  }

  /** Calls, their timers and cancellations leave the connection alone. */
  lemma RequestsLeaveConnection(s: State, h: Happening)
    requires Enabled(s, h) && (h.CallRequested? || h.TimerFires? || h.CancelRequested?)
    ensures var t := Step(s, h);
            && Pending(t) == Pending(s) && t.attempting == s.attempting && t.attempts == s.attempts && t.made == s.made
            && t.hasProxy == s.hasProxy && t.connected == s.connected && t.emissions == s.emissions
  {
  }

  lemma {:induction false} AttemptsAreCounted(ss: seq<State>, hs: seq<Happening>, k: nat)
    requires IsRun(ss, hs) && k <= |hs| && !ss[k].hasProxy
    ensures ss[k].attempts == Failures(hs, k) <= 6
    ensures Abandoned(hs, k) ==> Pending(ss[k]) == 0
    ensures !Abandoned(hs, k) ==> Pending(ss[k]) == (if Failures(hs, k) == 6 then 0 else 1)
    ensures !Abandoned(hs, k) ==> ss[k].made == Failures(hs, k) + ss[k].attempting
  {
    hide Acquired, CallsMatch, OnCall, OnTimer, Inv, Abandoned;
    if k > 0 {
      var s, h := ss[k - 1], hs[k - 1];
      ProxyStays(s, h);
      AttemptsAreCounted(ss, hs, k - 1);
      AbandonedStep(hs, k - 1);
      if h.CallRequested? || h.TimerFires? || h.CancelRequested? {
        RequestsLeaveConnection(s, h);
      }
    } else {
      assert !Abandoned(hs, 0) by {
        NothingAbandoned(hs);
      }
    }
  }

  lemma NothingAbandoned(hs: seq<Happening>)
    ensures !Abandoned(hs, 0)
  {
  }

  lemma ProxyStays(s: State, h: Happening)
    requires Enabled(s, h)
    ensures Step(s, h).hasProxy <==> s.hasProxy || (h.ConnectReply? && h.outcome.Created?)
  {
  }

  /** In every run, as long as there is no proxy, nothing is under way exactly when six attempts have failed
      or one was cancelled or came to nothing. After six failures just six attempts were made. */
  lemma GivesUpIff(ss: seq<State>, hs: seq<Happening>, k: nat)
    requires IsRun(ss, hs) && k <= |hs| && !ss[k].hasProxy
    ensures ss[k].attempting == 0 && !ss[k].retryTimer <==> Failures(hs, k) == 6 || Abandoned(hs, k)
    ensures !Abandoned(hs, k) && Failures(hs, k) == 6 ==> ss[k].made == 6
  {
    AttemptsAreCounted(ss, hs, k);
  }

  // ---------------------------------------------------------------------------------
  // What the signals say

  /** The last thing that was reported about the owner of the name: false before there is a proxy. */
  function LastOwner(hs: seq<Happening>, k: nat): bool
    requires k <= |hs|
  {
    if k == 0 then false else
      match hs[k - 1]
      case ConnectReply(Created(hasOwner)) => hasOwner
      case OwnerChanged(hasOwner) => hasOwner
      case _ => LastOwner(hs, k - 1)
  }

  /** A step signals exactly a change of the connected flag, once, with the new value. */
  lemma SignalsChange(s: State, h: Happening)
    requires Inv(s) && Enabled(s, h)
    ensures Step(s, h).emissions ==
              s.emissions + if Step(s, h).connected != s.connected then [Step(s, h).connected] else []
  {
    hide CallsMatch, SlotsRun, Issued;
  }

  /** Some attempt has succeeded. */
  ghost predicate Succeeded(hs: seq<Happening>, k: nat)
    requires k <= |hs|
  {
    exists i | 0 <= i < k :: hs[i].ConnectReply? && hs[i].outcome.Created?
  }

  lemma SucceededStep(hs: seq<Happening>, k: nat)
    requires k < |hs|
    ensures Succeeded(hs, k + 1) <==> Succeeded(hs, k) || (hs[k].ConnectReply? && hs[k].outcome.Created?)
  {
  }

  /** In every run the flag is the last report about the owner, and there is a proxy exactly when an attempt
      has succeeded. */
  lemma {:induction false} ConnectedIsLastOwner(ss: seq<State>, hs: seq<Happening>, k: nat)
    requires IsRun(ss, hs) && k <= |hs|
    ensures ss[k].connected == LastOwner(hs, k)
    ensures ss[k].hasProxy <==> Succeeded(hs, k)
  {
    hide CallsMatch, OnCall, OnTimer, Inv;
    if k > 0 {
      var s, h := ss[k - 1], hs[k - 1];
      ProxyStays(s, h);
      ConnectedIsLastOwner(ss, hs, k - 1);
      WithoutProxy(ss, hs, k - 1);
      SucceededStep(hs, k - 1);
      if h.CallRequested? || h.TimerFires? || h.CancelRequested? {
        RequestsLeaveConnection(s, h);
      }
    }
  }

  lemma WithoutProxy(ss: seq<State>, hs: seq<Happening>, k: nat)
    requires IsRun(ss, hs) && k <= |hs|
    ensures !ss[k].hasProxy ==> !ss[k].connected
    ensures Pending(ss[k]) > 0 ==> !ss[k].hasProxy
  {
    RunKeepsInv(ss, hs, k);
  }
}
