/** The handshake with the session manager about ending the session
    (UnityCore/GnomeSessionManager.cpp). A logout, reboot or shutdown is first "armed"; the session
    manager then asks for the dialog to be opened, and an armed action is confirmed at once. */
module SessionManager {

  /** The action codes of the protocol; any other unsigned value can arrive over the bus. */
  datatype Action = LOGOUT | SHUTDOWN | REBOOT | NONE | Other(code: nat)

  datatype Remote =
    | SessionCall(action: Action)      // Logout, Shutdown or Reboot of the session manager
    | LogindCall(name: string)
    | ConsoleKitCall(name: string)
    | UPowerCall(name: string)

  datatype Option<+T> = None | Some(value: T)

  datatype Happening =
    | Open(action: Action, inhibitors: bool, interactive: bool)
    | Close
    | Call(action: Action)
    | Sleep(name: string)              // Suspend or Hibernate
    | LockScreen(prompt: bool, canLock: bool)
    | CancelAction
    | Reply(remote: Remote, failed: bool)

  datatype Cause = ByCall | ByOpen | ByConfirmation | ByCancellation | ByErrorReply

  datatype Effect =
    | Assigned(cause: Cause, before: Action, after: Action)   // pending_action_ was written
    | Confirmed(action: Action) | Canceled | Closed           // signals of the dialog object
    | Requested(action: Action, inhibitors: bool)             // signals to the shell
    | CancelRequested
    | LockRequested(prompt: bool)
    | ScreensaverRequested
    | Sent(remote: Remote)

  /** Which identifiers the environment provides for the fallbacks of a logout. */
  datatype Environment = Environment(sessionId: bool, cookie: bool)

  datatype State = State(pending: Action, awaited: multiset<Remote>, log: seq<Effect>)

  const START := State(NONE, multiset{}, [])

  predicate IsKnown(a: Action) {
    a == LOGOUT || a == SHUTDOWN || a == REBOOT
  }

  // ---------------------------------------------------------------------------------
  // The handlers as functions

  function Note(s: State, e: Effect): State {
    s.(log := s.log + [e])
  }

  function Assign(s: State, cause: Cause, a: Action): State {
    Note(s, Assigned(cause, s.pending, a)).(pending := a)
  }

  function Send(s: State, r: Remote): State {
    Note(s, Sent(r)).(awaited := s.awaited + multiset{r})
  }

  function Cancel(s: State): State {
    Note(Assign(s, ByCancellation, NONE), Canceled)
  }

  function EnsureCancel(s: State): State {
    if s.pending == NONE then s else Cancel(s)
  }

  function Confirm(s: State, a: Action): State {
    Note(Assign(s, ByConfirmation, NONE), Confirmed(a))
  }

  function OnOpen(s: State, action: Action, inhibitors: bool, interactive: bool): State {
    var s1 := if s.pending == NONE && !interactive && !inhibitors then Assign(s, ByOpen, action) else s;
    if s1.pending == NONE then
      var s2 := if inhibitors then Assign(s1, ByOpen, action) else Cancel(s1);
      if IsKnown(action) then Note(s2, Requested(action, inhibitors)) else s2
    else if s1.pending == action && IsKnown(action) then
      Note(Confirm(s1, action), Closed)
    else
      s1
  }

  function OnCall(s: State, action: Action): State {
    Send(Assign(EnsureCancel(s), ByCall, action), SessionCall(action))
  }

  /** What is tried when a remote call has failed. */
  function Fallback(r: Remote, env: Environment): Option<Remote> {
    match r
    case SessionCall(LOGOUT) =>
      if env.sessionId then Some(LogindCall("TerminateSession"))
      else if env.cookie then Some(ConsoleKitCall("CloseSession"))
      else None
    case SessionCall(REBOOT) => Some(LogindCall("Reboot"))
    case SessionCall(_) => Some(LogindCall("PowerOff"))
    case LogindCall(name) =>
      if name == "TerminateSession" then (if env.cookie then Some(ConsoleKitCall("CloseSession")) else None)
      else if name == "Reboot" then Some(ConsoleKitCall("Restart"))
      else if name == "PowerOff" then Some(ConsoleKitCall("Stop"))
      else Some(UPowerCall(name))
    case _ => None
  }

  function OnFailure(s: State, r: Remote, env: Environment): State {
    var s1 := if r.SessionCall? then Assign(s, ByErrorReply, NONE) else s;
    match Fallback(r, env)
    case Some(q) => Send(s1, q)
    case None => s1
  }

  lemma NoFallback(s: State, r: Remote, env: Environment)
    requires !r.SessionCall? && !r.LogindCall?
    ensures OnFailure(s, r, env) == s
  {
  }

  function OnReply(s: State, r: Remote, failed: bool, env: Environment): State {
    var s1 := s.(awaited := s.awaited - multiset{r});
    if failed then OnFailure(s1, r, env) else s1
  }

  function OnLock(s: State, prompt: bool, canLock: bool): State {
    Note(EnsureCancel(s), if canLock then LockRequested(prompt) else ScreensaverRequested)
  }

  /** Only the three calls exist, and only an outstanding call can be answered. */
  predicate Enabled(s: State, h: Happening) {
    && (h.Call? ==> IsKnown(h.action))
    && (h.Sleep? ==> h.name == "Suspend" || h.name == "Hibernate")
    && (h.Reply? ==> h.remote in s.awaited)
  }

  function Step(s: State, h: Happening, env: Environment): State {
    match h
    case Open(action, inhibitors, interactive) => OnOpen(s, action, inhibitors, interactive)
    case Close => Note(Note(s, CancelRequested), Closed)
    case Call(action) => OnCall(s, action)
    case Sleep(name) => Send(EnsureCancel(s), LogindCall(name))
    case LockScreen(prompt, canLock) => OnLock(s, prompt, canLock)
    case CancelAction => Cancel(s)
    case Reply(r, failed) => OnReply(s, r, failed, env)
  }

  // ---------------------------------------------------------------------------------
  // The object

  class GnomeManager {
    const env: Environment
    var pendingAction: Action
    ghost var awaited: multiset<Remote>
    ghost var log: seq<Effect>

    ghost function Now(): State
      reads this
    {
      State(pendingAction, awaited, log)
    }

    constructor (env: Environment)
      ensures Now() == START && this.env == env
    {
      this.env := env;
      pendingAction, awaited, log := NONE, multiset{}, [];
    }

    method SetPending(cause: Cause, action: Action)
      modifies this
      ensures Now() == Assign(old(Now()), cause, action)
    {
      log := log + [Assigned(cause, pendingAction, action)];
      pendingAction := action;
    }

    method Emit(effect: Effect)
      modifies this
      ensures Now() == Note(old(Now()), effect)
    {
      log := log + [effect];
    }

    method SendCall(remote: Remote)
      modifies this
      ensures Now() == Send(old(Now()), remote)
    {
      log := log + [Sent(remote)];
      awaited := awaited + multiset{remote};
    }

    method CancelAction()
      modifies this
      ensures Now() == Cancel(old(Now()))
    {
      SetPending(ByCancellation, NONE);
      Emit(Canceled);
    }

    method EnsureCancelPendingAction()
      modifies this
      ensures Now() == EnsureCancel(old(Now()))
    {
      if pendingAction == NONE {
        return;
      }
      CancelAction();
    }

    method ConfirmAndClose(action: Action)
      modifies this
      ensures Now() == Note(Confirm(old(Now()), action), Closed)
    {
      SetPending(ByConfirmation, NONE);
      Emit(Confirmed(action));
      Emit(Closed);
    }

    method Open(action: Action, inhibitors: bool, interactive: bool)
      modifies this
      ensures Now() == OnOpen(old(Now()), action, inhibitors, interactive)
    {
      if pendingAction == NONE {
        if !interactive && !inhibitors {
          SetPending(ByOpen, action);
        }
      }
      if pendingAction == NONE {
        if inhibitors {
          SetPending(ByOpen, action);
        } else {
          CancelAction();
        }
        match action {
          case LOGOUT => Emit(Requested(LOGOUT, inhibitors));
          case SHUTDOWN => Emit(Requested(SHUTDOWN, inhibitors));
          case REBOOT => Emit(Requested(REBOOT, inhibitors));
          case _ =>
        }
      } else if pendingAction == action {
        match action {
          case LOGOUT => ConfirmAndClose(LOGOUT);
          case SHUTDOWN => ConfirmAndClose(SHUTDOWN);
          case REBOOT => ConfirmAndClose(REBOOT);
          case _ =>
        }
      }
    }

    method Close()
      modifies this
      ensures Now() == Step(old(Now()), Happening.Close, env)
    {
      Emit(CancelRequested);
      Emit(Closed);
    }

    method EndSession(action: Action)
      requires IsKnown(action)
      modifies this
      ensures Now() == OnCall(old(Now()), action)
    {
      EnsureCancelPendingAction();
      SetPending(ByCall, action);
      SendCall(SessionCall(action));
    }

    method Sleep(name: string)
      modifies this
      ensures Now() == Send(EnsureCancel(old(Now())), LogindCall(name))
    {
      EnsureCancelPendingAction();
      SendCall(LogindCall(name));
    }

    method LockScreen(prompt: bool, canLock: bool)
      modifies this
      ensures Now() == OnLock(old(Now()), prompt, canLock)
    {
      EnsureCancelPendingAction();
      if !canLock {
        Emit(ScreensaverRequested);
        return;
      }
      Emit(LockRequested(prompt));
    }

    method OnReplied(remote: Remote, failed: bool)
      requires remote in awaited
      modifies this
      ensures Now() == OnReply(old(Now()), remote, failed, env)
    {
      hide OnFailure;
      awaited := awaited - multiset{remote};
      if !failed {
        return;
      }
      match remote {
        case SessionCall(action) => OnSessionCallFailed(action);
        case LogindCall(name) => OnLogindCallFailed(name);
        case _ => NoFallback(Now(), remote, env);
      }
    }

    method OnSessionCallFailed(action: Action)
      modifies this
      ensures Now() == OnFailure(old(Now()), SessionCall(action), env)
    {
      hide Assign, Send;
      SetPending(ByErrorReply, NONE);
      match action {
        case LOGOUT =>
          if env.sessionId {
            SendCall(LogindCall("TerminateSession"));
          } else {
            CallConsoleKitCloseSession();
          }
        case REBOOT => SendCall(LogindCall("Reboot"));
        case _ => SendCall(LogindCall("PowerOff"));
      }
    }

    method OnLogindCallFailed(name: string)
      modifies this
      ensures Now() == OnFailure(old(Now()), LogindCall(name), env)
    {
      hide Send;
      if name == "TerminateSession" {
        CallConsoleKitCloseSession();
      } else if name == "Reboot" {
        SendCall(ConsoleKitCall("Restart"));
      } else if name == "PowerOff" {
        SendCall(ConsoleKitCall("Stop"));
      } else {
        SendCall(UPowerCall(name));
      }
    }

    method CallConsoleKitCloseSession()
      modifies this
      ensures Now() == if env.cookie then Send(old(Now()), ConsoleKitCall("CloseSession")) else old(Now())
    {
      if env.cookie {
        SendCall(ConsoleKitCall("CloseSession"));
      }
    }
  }

  // ---------------------------------------------------------------------------------
  // Whole runs

  /** ss[i] is the state in which the i-th happening is handled, from whatever state on. */
  ghost predicate IsSegment(ss: seq<State>, hs: seq<Happening>, env: Environment) {
    && |ss| == |hs| + 1
    && forall i | 0 <= i < |hs| :: Enabled(ss[i], hs[i]) && ss[i + 1] == Step(ss[i], hs[i], env)
  }

  ghost predicate IsRun(ss: seq<State>, hs: seq<Happening>, env: Environment) {
    IsSegment(ss, hs, env) && ss[0] == START
  }

  // ---------------------------------------------------------------------------------
  // Accounting: every arming ends in exactly one way

  datatype Tally = Armings | Confirmations | Cancellations | ErrorResets | ConfirmedSignals

  predicate Tallied(t: Tally, e: Effect) {
    match t
    case Armings => e.Assigned? && e.after != NONE
    case Confirmations => e.Assigned? && e.before != NONE && e.cause == ByConfirmation
    case Cancellations => e.Assigned? && e.before != NONE && e.cause == ByCancellation
    case ErrorResets => e.Assigned? && e.before != NONE && e.cause == ByErrorReply
    case ConfirmedSignals => e.Confirmed?
  }

  function Count(log: seq<Effect>, t: Tally): nat {
    if log == [] then 0 else Count(log[..|log| - 1], t) + if Tallied(t, log[|log| - 1]) then 1 else 0
  }

  function Armed(a: Action): nat {
    if a == NONE then 0 else 1
  }

  /** The books balance: armings = confirmations + cancellations while armed + error replies while
      armed + what is still pending, and every confirmation was signalled exactly once. */
  ghost predicate Balanced(s: State) {
    && Count(s.log, Armings) == Count(s.log, Confirmations) + Count(s.log, Cancellations)
                                + Count(s.log, ErrorResets) + Armed(s.pending)
    && Count(s.log, ConfirmedSignals) == Count(s.log, Confirmations)
  }

  lemma CountNote(s: State, e: Effect, t: Tally)
    ensures Count(Note(s, e).log, t) == Count(s.log, t) + if Tallied(t, e) then 1 else 0
  {
    assert (s.log + [e])[..|s.log|] == s.log;
  }

  lemma NoteBalances(s: State, e: Effect)
    requires Balanced(s) && !e.Assigned? && !e.Confirmed?
    ensures Balanced(Note(s, e))
  {
    CountNote(s, e, Armings);
    CountNote(s, e, Confirmations);
    CountNote(s, e, Cancellations);
    CountNote(s, e, ErrorResets);
    CountNote(s, e, ConfirmedSignals);
  }

  /** Writing pending_action_ keeps the books when an armed action is only ever reset, by one of the
      three causes, and a confirmation of an armed action is followed by its signal. */
  lemma AssignBalances(s: State, cause: Cause, a: Action)
    requires Balanced(s) && (s.pending == NONE || a == NONE)
    requires s.pending != NONE ==> cause == ByCancellation || cause == ByErrorReply
    ensures Balanced(Assign(s, cause, a))
  {
    var e := Assigned(cause, s.pending, a);
    CountNote(s, e, Armings);
    CountNote(s, e, Confirmations);
    CountNote(s, e, Cancellations);
    CountNote(s, e, ErrorResets);
    CountNote(s, e, ConfirmedSignals);
  }

  lemma ConfirmBalances(s: State, a: Action)
    requires Balanced(s) && s.pending != NONE
    ensures Balanced(Confirm(s, a))
  {
    var s1, e := Assign(s, ByConfirmation, NONE), Assigned(ByConfirmation, s.pending, NONE);
    forall t ensures Count(Confirm(s, a).log, t) ==
                       Count(s.log, t) + (if Tallied(t, e) then 1 else 0) + if Tallied(t, Confirmed(a)) then 1 else 0 {
      CountNote(s, e, t);
      CountNote(s1, Confirmed(a), t);
    }
  }

  lemma CancelBalances(s: State)
    requires Balanced(s)
    ensures Balanced(Cancel(s)) && Balanced(EnsureCancel(s))
  {
    AssignBalances(s, ByCancellation, NONE);
    NoteBalances(Assign(s, ByCancellation, NONE), Canceled);
  }

  lemma OpenBalances(s: State, action: Action, inhibitors: bool, interactive: bool)
    requires Balanced(s)
    ensures Balanced(OnOpen(s, action, inhibitors, interactive))
  {
    hide Balanced;
    var s1 := if s.pending == NONE && !interactive && !inhibitors then Assign(s, ByOpen, action) else s;
    if s.pending == NONE {
      AssignBalances(s, ByOpen, action);
    }
    if s1.pending == NONE {
      AssignBalances(s1, ByOpen, action);
      CancelBalances(s1);
      NoteBalances(if inhibitors then Assign(s1, ByOpen, action) else Cancel(s1), Requested(action, inhibitors));
    } else {
      ConfirmBalances(s1, action);
      NoteBalances(Confirm(s1, action), Closed);
    }
  }

  lemma SendBalances(s: State, r: Remote)
    requires Balanced(s)
    ensures Balanced(Send(s, r))
  {
    NoteBalances(s, Sent(r));
  }

  lemma FailureBalances(s: State, r: Remote, env: Environment)
    requires Balanced(s)
    ensures Balanced(OnFailure(s, r, env))
  {
    hide Balanced, Fallback;
    var s1 := if r.SessionCall? then Assign(s, ByErrorReply, NONE) else s;
    AssignBalances(s, ByErrorReply, NONE);
    if Fallback(r, env).Some? {
      SendBalances(s1, Fallback(r, env).value);
    }
  }

  lemma StepBalances(s: State, h: Happening, env: Environment)
    requires Balanced(s)
    ensures Balanced(Step(s, h, env))
  {
    hide Count;
    CancelBalances(s);
    match h
    case Open(action, inhibitors, interactive) => OpenBalances(s, action, inhibitors, interactive);
    case Close => NoteBalances(s, CancelRequested); NoteBalances(Note(s, CancelRequested), Closed);
    case Call(action) =>
      AssignBalances(EnsureCancel(s), ByCall, action);
      SendBalances(Assign(EnsureCancel(s), ByCall, action), SessionCall(action));
    case Sleep(name) => SendBalances(EnsureCancel(s), LogindCall(name));
    case LockScreen(prompt, canLock) =>
      NoteBalances(EnsureCancel(s), if canLock then LockRequested(prompt) else ScreensaverRequested);
    case CancelAction =>
    case Reply(r, failed) => FailureBalances(s.(awaited := s.awaited - multiset{r}), r, env);
  }

  /** The books balance after every run, whatever the order of calls, requests and late replies. */
  lemma {:induction false} RunBalances(ss: seq<State>, hs: seq<Happening>, i: nat, env: Environment)
    requires IsRun(ss, hs, env) && i <= |hs|
    ensures Balanced(ss[i])
  {
    if i > 0 {
      RunBalances(ss, hs, i - 1, env);
      StepBalances(ss[i - 1], hs[i - 1], env);
    }
  }

  // ---------------------------------------------------------------------------------
  // Where a confirmation comes from

  /** What was added to a log. */
  function New(before: seq<Effect>, after: seq<Effect>): seq<Effect> {
    if |before| <= |after| then after[|before|..] else []
  }

  function Added(s: State, t: State): seq<Effect> {
    New(s.log, t.log)
  }

  lemma NothingNew(log: seq<Effect>)
    ensures New(log, log) == []
  {
  }

  lemma OneMoreNew(before: seq<Effect>, log: seq<Effect>, e: Effect)
    requires before <= log
    ensures before <= log + [e] && forall x :: x in New(before, log + [e]) <==> x in New(before, log) || x == e
  {
    assert New(before, log + [e]) == New(before, log) + [e];
  }

  /** The step from s by h emits the confirmation of a. */
  ghost predicate Confirms(s: State, h: Happening, env: Environment, a: Action) {
    Confirmed(a) in Added(s, Step(s, h, env))
  }

  /** A confirmation is emitted exactly while handling the request to open the dialog for the same
      known action, when that action is armed already, or when nothing is pending and the request
      itself arms it because there is neither an inhibitor nor an interactive session. */
  lemma ConfirmsIff(s: State, h: Happening, env: Environment, a: Action)
    ensures Confirms(s, h, env, a) <==>
              && IsKnown(a) && h.Open? && h.action == a
              && (s.pending == a || (s.pending == NONE && !h.inhibitors && !h.interactive))
  {
    var t := Step(s, h, env);
    match h {
      case Open(action, inhibitors, interactive) =>
        OpenConfirmsIff(s, action, inhibitors, interactive, env, a);
      case Reply(r, failed) =>
        FailureConfirmsNothing(s.(awaited := s.awaited - multiset{r}), r, env, a);
      case _ =>
    }
  }

  lemma OpenConfirmsIff(s: State, action: Action, inhibitors: bool, interactive: bool, env: Environment, a: Action)
    ensures Confirms(s, Open(action, inhibitors, interactive), env, a) <==>
              IsKnown(a) && action == a && (s.pending == a || (s.pending == NONE && !inhibitors && !interactive))
  {
    hide Step, Emits;
    var h := Open(action, inhibitors, interactive);
    if IsKnown(action) {
      OpenEmits(s, action, inhibitors, interactive, env);
      EmitsDecides(s, h, env,
        if s.pending == action || (s.pending == NONE && !inhibitors && !interactive) then [Confirmed(action), Closed]
        else if s.pending != NONE then []
        else if inhibitors then [Requested(action, true)]
        else [Canceled, Requested(action, false)], Confirmed(a));
    } else {
      UnknownOpenEmits(s, action, inhibitors, interactive, env);
      EmitsDecides(s, h, env,
        if s.pending == NONE && !inhibitors && (interactive || action == NONE) then [Canceled] else [], Confirmed(a));
    }
  }

  lemma NoteGrows(s: State, e: Effect)
    ensures s.log <= Note(s, e).log
  {
  }

  lemma AssignGrows(s: State, cause: Cause, a: Action)
    ensures s.log <= Assign(s, cause, a).log
  {
  }

  lemma CancelGrows(s: State)
    ensures s.log <= Cancel(s).log && s.log <= EnsureCancel(s).log
  {
  }

  lemma OpenGrows(s: State, action: Action, inhibitors: bool, interactive: bool)
    ensures s.log <= OnOpen(s, action, inhibitors, interactive).log
  {
    hide Note, Assign, Cancel;
    var s1 := if s.pending == NONE && !interactive && !inhibitors then Assign(s, ByOpen, action) else s;
    AssignGrows(s, ByOpen, action);
    if s1.pending == NONE {
      AssignGrows(s1, ByOpen, action);
      CancelGrows(s1);
      NoteGrows(if inhibitors then Assign(s1, ByOpen, action) else Cancel(s1), Requested(action, inhibitors));
    } else {
      AssignGrows(s1, ByConfirmation, NONE);
      NoteGrows(Assign(s1, ByConfirmation, NONE), Confirmed(action));
      NoteGrows(Confirm(s1, action), Closed);
    }
  }

  lemma LogGrows(s: State, h: Happening, env: Environment)
    ensures s.log <= Step(s, h, env).log
  {
    hide Cancel, EnsureCancel, OnOpen, OnFailure;
    CancelGrows(s);
    match h
    case Open(action, inhibitors, interactive) => OpenGrows(s, action, inhibitors, interactive);
    case Reply(r, failed) => FailureConfirmsNothing(s.(awaited := s.awaited - multiset{r}), r, env, NONE);
    case _ =>
  }

  lemma FailureConfirmsNothing(s: State, r: Remote, env: Environment, a: Action)
    ensures s.log <= OnFailure(s, r, env).log
    ensures Confirmed(a) !in Added(s, OnFailure(s, r, env))
  {
    hide New, Fallback;
    NothingNew(s.log);
    OneMoreNew(s.log, s.log, Assigned(ByErrorReply, s.pending, NONE));
    var s1 := if r.SessionCall? then Assign(s, ByErrorReply, NONE) else s;
    if Fallback(r, env).Some? {
      OneMoreNew(s.log, s1.log, Sent(Fallback(r, env).value));
    }
  }

  /** The happening h, handled in state s, arms a: our own call, a request with inhibitors, or a request
      that needs neither confirmation nor waiting. */
  predicate Arms(s: State, h: Happening, a: Action) {
    h == Call(a) || (h.Open? && h.action == a && s.pending == NONE && (h.inhibitors || !h.interactive))
  }

  /** The happening h writes pending_action_ when it is handled in state s. */
  predicate Writes(s: State, h: Happening) {
    match h
    case Open(action, _, _) => s.pending == NONE || (s.pending == action && IsKnown(action))
    case Close => false
    case Call(_) => true
    case Sleep(_) => s.pending != NONE
    case LockScreen(_, _) => s.pending != NONE
    case CancelAction => true
    case Reply(r, failed) => failed && r.SessionCall?
  }

  /** A step that does not write leaves what is pending alone; one that writes and leaves an action
      pending has armed it. */
  lemma WritesDecides(s: State, h: Happening, env: Environment)
    requires Enabled(s, h)
    ensures var a := Step(s, h, env).pending;
            && (!Writes(s, h) ==> a == s.pending)
            && (Writes(s, h) && a != NONE ==> Arms(s, h, a))
  {
  }

  /** The arming at j is what the happening at i finds: nothing wrote pending_action_ in between. */
  ghost predicate Lasts(ss: seq<State>, hs: seq<Happening>, j: nat, i: nat, a: Action)
    requires j <= i < |hs| < |ss|
  {
    && Arms(ss[j], hs[j], a)
    && (j < i ==> ss[i].pending == a)
    && forall k | j < k < i :: !Writes(ss[k], hs[k])
  }

  lemma {:induction false} PendingWasArmed(ss: seq<State>, hs: seq<Happening>, i: nat, env: Environment)
    requires IsRun(ss, hs, env) && 0 < i < |hs| && ss[i].pending != NONE
    ensures exists j | 0 <= j < i :: Lasts(ss, hs, j, i, ss[i].pending)
  {
    hide Step, Writes, Enabled, Arms;
    var a := ss[i].pending;
    WritesDecides(ss[i - 1], hs[i - 1], env);
    if Writes(ss[i - 1], hs[i - 1]) {
      assert Lasts(ss, hs, i - 1, i, a);
    } else {
      PendingWasArmed(ss, hs, i - 1, env);
      var j :| 0 <= j < i - 1 && Lasts(ss, hs, j, i - 1, a);
      assert Lasts(ss, hs, j, i, a);
    }
  }

  lemma {:induction false} PendingStays(ss: seq<State>, hs: seq<Happening>, p: nat, q: nat, env: Environment)
    requires IsSegment(ss, hs, env) && p <= q <= |hs| && forall k | p <= k < q :: !Writes(ss[k], hs[k])
    ensures ss[q].pending == ss[p].pending
  {
    hide Step, Writes, Enabled;
    if p < q {
      PendingStays(ss, hs, p, q - 1, env);
      WritesDecides(ss[q - 1], hs[q - 1], env);
    }
  }

  /** A request without inhibitors arms a known action only for itself. */
  lemma OpenAloneEnds(s: State, h: Happening, env: Environment)
    requires h.Open? && IsKnown(h.action) && s.pending == NONE && !h.inhibitors
    ensures Step(s, h, env).pending == NONE
  {
  }

  /** What is still armed later was armed by our own call or by a request with inhibitors. */
  lemma ArmedForLater(ss: seq<State>, hs: seq<Happening>, j: nat, i: nat, env: Environment, a: Action)
    requires IsSegment(ss, hs, env) && j < i < |hs| && Lasts(ss, hs, j, i, a) && IsKnown(a)
    ensures hs[j] == Call(a) || (hs[j].Open? && hs[j].action == a && hs[j].inhibitors)
  {
    hide Step, Writes, Enabled;
    if hs[j].Open? && !hs[j].inhibitors {
      OpenAloneEnds(ss[j], hs[j], env);
      PendingStays(ss, hs, j + 1, i, env);
    }
  }

  /** Every confirmation answers a request for the same action, and uses an arming of that action
      that nothing has ended in between: by the same request, by our own call, or by an earlier
      request with inhibitors. */
  lemma ConfirmationHasArming(ss: seq<State>, hs: seq<Happening>, i: nat, env: Environment, a: Action)
    requires IsRun(ss, hs, env) && i < |hs| && Confirms(ss[i], hs[i], env, a)
    ensures hs[i].Open? && hs[i].action == a && IsKnown(a)
    ensures exists j | 0 <= j <= i ::
              && Lasts(ss, hs, j, i, a)
              && if j == i then !hs[i].inhibitors && !hs[i].interactive
                 else hs[j] == Call(a) || (hs[j].Open? && hs[j].action == a && hs[j].inhibitors)
    ensures ss[i + 1].pending == NONE
  {
    ConfirmsIff(ss[i], hs[i], env, a);
    if ss[i].pending == a {
      PendingWasArmed(ss, hs, i, env);
      var j :| 0 <= j < i && Lasts(ss, hs, j, i, a);
      ArmedForLater(ss, hs, j, i, env, a);
    } else {
      assert Lasts(ss, hs, i, i, a);
    }
  }

  lemma ConfirmingWrites(s: State, h: Happening, env: Environment, a: Action)
    requires Confirms(s, h, env, a)
    ensures Writes(s, h)
  {
    ConfirmsIff(s, h, env, a);
  }

  // ---------------------------------------------------------------------------------
  // How long the arming of a call lasts, said of the happenings alone

  /** What ends the arming of a, whatever the state is. */
  predicate Ends(h: Happening, a: Action) {
    match h
    case Open(action, _, _) => action == a
    case Close => false
    case Call(_) => true
    case Sleep(_) => true
    case LockScreen(_, _) => true
    case CancelAction => true
    case Reply(r, failed) => failed && r.SessionCall?
  }

  ghost predicate Undisturbed(hs: seq<Happening>, j: nat, i: nat, a: Action)
    requires j < i <= |hs|
  {
    forall k | j < k < i :: !Ends(hs[k], a)
  }

  lemma EndsWrites(s: State, h: Happening, a: Action)
    requires s.pending == a && IsKnown(a)
    ensures Writes(s, h) <==> Ends(h, a)
  {
  }

  lemma CallArms(s: State, a: Action, env: Environment)
    ensures Step(s, Call(a), env).pending == a
  {
  }

  lemma {:induction false} CallStaysArmed(ss: seq<State>, hs: seq<Happening>, j: nat, i: nat, env: Environment, a: Action)
    requires IsSegment(ss, hs, env) && j < i <= |hs| && hs[j] == Call(a) && Undisturbed(hs, j, i, a)
    ensures IsKnown(a) && ss[i].pending == a && forall k | j < k < i :: !Writes(ss[k], hs[k])
    decreases i
  {
    hide Writes, Ends, Step;
    if i == j + 1 {
      CallArms(ss[j], a, env);
    } else {
      CallStaysArmed(ss, hs, j, i - 1, env, a);
      EndsWrites(ss[i - 1], hs[i - 1], a);
      WritesDecides(ss[i - 1], hs[i - 1], env);
    }
  }

  /** The arming of a call is still there at i exactly when none of these came in between: a request for
      the same action, any call, sleep, lock or cancellation, and a failed reply of any session call.
      Requests for other actions, closing the dialog and every other reply leave it alone. */
  lemma CallLastsIff(ss: seq<State>, hs: seq<Happening>, j: nat, i: nat, env: Environment, a: Action)
    requires IsSegment(ss, hs, env) && j < i < |hs| && hs[j] == Call(a)
    ensures Lasts(ss, hs, j, i, a) <==> Undisturbed(hs, j, i, a)
  {
    hide Writes, Ends, Step;
    if Undisturbed(hs, j, i, a) {
      CallStaysArmed(ss, hs, j, i, env, a);
    }
    if Lasts(ss, hs, j, i, a) {
      CallStaysArmed(ss, hs, j, j + 1, env, a);
      forall k | j < k < i ensures !Ends(hs[k], a) {
        PendingStays(ss, hs, j + 1, k, env);
        EndsWrites(ss[k], hs[k], a);
      }
    }
  }

  /** Our own call is confirmed by a later request to open the dialog for it, with or without inhibitors,
      on the arming of that call, exactly when nothing in between has ended the arming. */
  lemma CallThenOpenConfirms(ss: seq<State>, hs: seq<Happening>, j: nat, i: nat, env: Environment, a: Action)
    requires IsSegment(ss, hs, env) && j < i < |hs| && hs[j] == Call(a) && hs[i].Open? && hs[i].action == a
    ensures Lasts(ss, hs, j, i, a) && Confirms(ss[i], hs[i], env, a) <==> Undisturbed(hs, j, i, a)
  {
    hide Ends, Step, Writes, Confirms;
    CallLastsIff(ss, hs, j, i, env, a);
    assert Enabled(ss[j], hs[j]);
    ConfirmsIff(ss[i], hs[i], env, a);
  }

  /** No arming serves two confirmations. */
  lemma ArmingServesOnce(ss: seq<State>, hs: seq<Happening>, j: nat, i: nat, i': nat, env: Environment, a: Action, a': Action)
    requires IsRun(ss, hs, env) && j <= i < i' < |hs| && a' != NONE
    requires Confirms(ss[i], hs[i], env, a) && Lasts(ss, hs, j, i, a)
    ensures !Lasts(ss, hs, j, i', a')
  {
    hide Step, Confirms, Arms, Writes, Enabled;
    ConfirmationHasArming(ss, hs, i, env, a);
    ConfirmingWrites(ss[i], hs[i], env, a);
    if j == i && Lasts(ss, hs, j, i', a') {
      PendingStays(ss, hs, i + 1, i', env);
    }
  }

  /** A late error reply ends whatever is armed when it arrives, even the arming of another call:
      a reboot asked for after a logout is disarmed when the logout call fails afterwards. */
  lemma LateErrorDisarmsAnotherCall(env: Environment)
    ensures var hs := [Call(LOGOUT), Call(REBOOT), Reply(SessionCall(LOGOUT), true), Open(REBOOT, false, true)];
            exists ss: seq<State> ::
              && IsRun(ss, hs, env)
              && Lasts(ss, hs, 1, 2, REBOOT) && ss[3].pending == NONE
              && !Confirms(ss[3], hs[3], env, REBOOT)
  {
    hide Step, Confirms, Writes, Ends;
    var hs := [Call(LOGOUT), Call(REBOOT), Reply(SessionCall(LOGOUT), true), Open(REBOOT, false, true)];
    var s2 := Step(Step(START, hs[0], env), hs[1], env);
    var s3 := Step(s2, hs[2], env);
    var ss := [START, Step(START, hs[0], env), s2, s3, Step(s3, hs[3], env)];
    BothAwaited(env);
    assert IsRun(ss, hs, env);
    ErrorReplyDisarmsIff(ss, hs, 1, 2, env, REBOOT, LOGOUT);
    ConfirmsIff(s3, hs[3], env, REBOOT);
  }

  lemma BothAwaited(env: Environment)
    ensures SessionCall(LOGOUT) in Step(Step(START, Call(LOGOUT), env), Call(REBOOT), env).awaited
  {
  }

  /** After the error reply of a session call nothing is armed, and the reply counts as a reset exactly
      when something was. */
  lemma ErrorReplyEndsPending(s: State, action: Action, env: Environment)
    ensures var t := Step(s, Reply(SessionCall(action), true), env);
            t.pending == NONE && Assigned(ByErrorReply, s.pending, NONE) in Added(s, t)
    ensures (exists e | e in Added(s, Step(s, Reply(SessionCall(action), true), env)) :: Tallied(ErrorResets, e))
       <==> s.pending != NONE
  {
    hide New, Fallback;
    var e := Assigned(ByErrorReply, s.pending, NONE);
    NothingNew(s.log);
    OneMoreNew(s.log, s.log, e);
    if Fallback(SessionCall(action), env).Some? {
      OneMoreNew(s.log, s.log + [e], Sent(Fallback(SessionCall(action), env).value));
    }
  }

  /** Whose arming an error reply takes away: the reply of any session call, its own or another one,
      disarms the call at j exactly when nothing has ended that arming before. So the late failure of an
      earlier call disarms a later call that is still undisturbed. */
  lemma ErrorReplyDisarmsIff(ss: seq<State>, hs: seq<Happening>, j: nat, i: nat, env: Environment, a: Action, b: Action)
    requires IsSegment(ss, hs, env) && j < i < |hs| && hs[j] == Call(a) && hs[i] == Reply(SessionCall(b), true)
    ensures ss[i + 1].pending == NONE
    ensures Lasts(ss, hs, j, i, a) && Assigned(ByErrorReply, a, NONE) in Added(ss[i], ss[i + 1])
       <==> Undisturbed(hs, j, i, a)
  {
    hide Ends, Step, Writes, Added;
    CallLastsIff(ss, hs, j, i, env, a);
    ErrorReplyEndsPending(ss[i], b, env);
  }

  // ---------------------------------------------------------------------------------
  // What each happening makes others see

  /** The signals and the remote calls. */
  function Visible(log: seq<Effect>): seq<Effect> {
    if log == [] then [] else
      var e := log[|log| - 1];
      Visible(log[..|log| - 1]) + if e.Assigned? then [] else [e]
  }

  /** Handling h in s adds exactly these, in this order. */
  ghost predicate Emits(s: State, h: Happening, env: Environment, effects: seq<Effect>) {
    Visible(Step(s, h, env).log) == Visible(s.log) + effects
  }

  lemma VisibleNote(s: State, e: Effect)
    ensures Visible(Note(s, e).log) == Visible(s.log) + if e.Assigned? then [] else [e]
  {
    assert (s.log + [e])[..|s.log|] == s.log;
  }

  lemma VisibleAssign(s: State, cause: Cause, a: Action)
    ensures Visible(Assign(s, cause, a).log) == Visible(s.log)
  {
    VisibleNote(s, Assigned(cause, s.pending, a));
  }

  lemma VisibleCancel(s: State)
    ensures Visible(Cancel(s).log) == Visible(s.log) + [Canceled]
    ensures Visible(EnsureCancel(s).log) == Visible(s.log) + if s.pending == NONE then [] else [Canceled]
  {
    VisibleAssign(s, ByCancellation, NONE);
    VisibleNote(Assign(s, ByCancellation, NONE), Canceled);
  }

  lemma VisibleSend(s: State, r: Remote)
    ensures Visible(Send(s, r).log) == Visible(s.log) + [Sent(r)]
  {
    VisibleNote(s, Sent(r));
  }

  /** A request to open the dialog confirms and closes, or cancels and asks the shell, or asks the shell
      about inhibitors; while another action is armed it does nothing. */
  lemma OpenEmits(s: State, action: Action, inhibitors: bool, interactive: bool, env: Environment)
    requires IsKnown(action)
    ensures Emits(s, Open(action, inhibitors, interactive), env,
              if s.pending == action || (s.pending == NONE && !inhibitors && !interactive) then
                [Confirmed(action), Closed]
              else if s.pending != NONE then []
              else if inhibitors then [Requested(action, true)]
              else [Canceled, Requested(action, false)])
  {
    hide Visible;
    var s1 := if s.pending == NONE && !interactive && !inhibitors then Assign(s, ByOpen, action) else s;
    VisibleAssign(s, ByOpen, action);
    if s1.pending == NONE {
      VisibleAssign(s1, ByOpen, action);
      VisibleCancel(s1);
      VisibleNote(if inhibitors then Assign(s1, ByOpen, action) else Cancel(s1), Requested(action, inhibitors));
    } else if s1.pending == action {
      VisibleAssign(s1, ByConfirmation, NONE);
      VisibleNote(Assign(s1, ByConfirmation, NONE), Confirmed(action));
      VisibleNote(Confirm(s1, action), Closed);
    }
  }

  /** A request for an unknown action asks the shell nothing, and closes nothing. */
  lemma UnknownOpenEmits(s: State, action: Action, inhibitors: bool, interactive: bool, env: Environment)
    requires !IsKnown(action)
    ensures Emits(s, Open(action, inhibitors, interactive), env,
              if s.pending == NONE && !inhibitors && (interactive || action == NONE) then [Canceled] else [])
  {
    hide Visible;
    var s1 := if s.pending == NONE && !interactive && !inhibitors then Assign(s, ByOpen, action) else s;
    VisibleAssign(s, ByOpen, action);
    VisibleAssign(s1, ByOpen, action);
    VisibleCancel(s1);
  }

  /** Each call of the user cancels what is armed and then sends its own remote call. */
  lemma CallEmits(s: State, a: Action, env: Environment)
    ensures Emits(s, Call(a), env, (if s.pending == NONE then [] else [Canceled]) + [Sent(SessionCall(a))])
  {
    hide Visible;
    VisibleCancel(s);
    VisibleAssign(EnsureCancel(s), ByCall, a);
    VisibleSend(Assign(EnsureCancel(s), ByCall, a), SessionCall(a));
  }

  lemma SleepEmits(s: State, name: string, env: Environment)
    ensures Emits(s, Sleep(name), env, (if s.pending == NONE then [] else [Canceled]) + [Sent(LogindCall(name))])
  {
    hide Visible;
    VisibleCancel(s);
    VisibleSend(EnsureCancel(s), LogindCall(name));
  }

  lemma LockEmits(s: State, prompt: bool, canLock: bool, env: Environment)
    ensures Emits(s, LockScreen(prompt, canLock), env,
              (if s.pending == NONE then [] else [Canceled])
              + [if canLock then LockRequested(prompt) else ScreensaverRequested])
  {
    hide Visible;
    VisibleCancel(s);
    VisibleNote(EnsureCancel(s), if canLock then LockRequested(prompt) else ScreensaverRequested);
  }

  lemma CancelAndCloseEmit(s: State, env: Environment)
    ensures Emits(s, CancelAction, env, [Canceled]) && Emits(s, Close, env, [CancelRequested, Closed])
  {
    hide Visible;
    VisibleCancel(s);
    VisibleNote(s, CancelRequested);
    VisibleNote(Note(s, CancelRequested), Closed);
  }

  lemma FailureEmits(s: State, r: Remote, env: Environment)
    ensures Emits(s, Reply(r, true), env, if Fallback(r, env).Some? then [Sent(Fallback(r, env).value)] else [])
  {
    hide Visible, Fallback;
    var s1 := s.(awaited := s.awaited - multiset{r});
    VisibleAssign(s1, ByErrorReply, NONE);
    if Fallback(r, env).Some? {
      VisibleSend(if r.SessionCall? then Assign(s1, ByErrorReply, NONE) else s1, Fallback(r, env).value);
    }
  }

  /** The failed reply of a session call sends the next call of its chain... */
  lemma SessionFailureEmits(s: State, env: Environment)
    ensures Emits(s, Reply(SessionCall(LOGOUT), true), env,
              if env.sessionId then [Sent(LogindCall("TerminateSession"))]
              else if env.cookie then [Sent(ConsoleKitCall("CloseSession"))]
              else [])
    ensures Emits(s, Reply(SessionCall(REBOOT), true), env, [Sent(LogindCall("Reboot"))])
    ensures Emits(s, Reply(SessionCall(SHUTDOWN), true), env, [Sent(LogindCall("PowerOff"))])
  {
    hide Emits;
    FailureEmits(s, SessionCall(LOGOUT), env);
    FailureEmits(s, SessionCall(REBOOT), env);
    FailureEmits(s, SessionCall(SHUTDOWN), env);
  }

  /** ... and so does that of a fallback. */
  lemma LogindFailureEmits(s: State, env: Environment)
    ensures Emits(s, Reply(LogindCall("TerminateSession"), true), env,
              if env.cookie then [Sent(ConsoleKitCall("CloseSession"))] else [])
    ensures Emits(s, Reply(LogindCall("Reboot"), true), env, [Sent(ConsoleKitCall("Restart"))])
    ensures Emits(s, Reply(LogindCall("PowerOff"), true), env, [Sent(ConsoleKitCall("Stop"))])
    ensures Emits(s, Reply(LogindCall("Suspend"), true), env, [Sent(UPowerCall("Suspend"))])
    ensures Emits(s, Reply(LogindCall("Hibernate"), true), env, [Sent(UPowerCall("Hibernate"))])
  {
    hide Emits;
    FailureEmits(s, LogindCall("TerminateSession"), env);
    FailureEmits(s, LogindCall("Reboot"), env);
    FailureEmits(s, LogindCall("PowerOff"), env);
    FailureEmits(s, LogindCall("Suspend"), env);
    FailureEmits(s, LogindCall("Hibernate"), env);
  }

  /** A success and the failure of a last fallback send nothing. */
  lemma OtherReplyEmits(s: State, r: Remote, failed: bool, env: Environment)
    requires !failed || r.ConsoleKitCall? || r.UPowerCall?
    ensures Emits(s, Reply(r, failed), env, [])
  {
    FailureEmits(s, r, env);
  }

  // ---- Whole runs: what is sent was asked for, and every answer belongs to something sent ----

  /** The user's request that the remote call r carries out, as a first try or as a fallback. */
  predicate Serves(r: Remote, h: Happening) {
    match r
    case SessionCall(a) => IsKnown(a) && h == Call(a)
    case LogindCall(name) =>
      || (name == "TerminateSession" && h == Call(LOGOUT))
      || (name == "Reboot" && h == Call(REBOOT))
      || (name == "PowerOff" && h == Call(SHUTDOWN))
      || ((name == "Suspend" || name == "Hibernate") && h == Sleep(name))
    case ConsoleKitCall(name) =>
      || (name == "CloseSession" && h == Call(LOGOUT))
      || (name == "Restart" && h == Call(REBOOT))
      || (name == "Stop" && h == Call(SHUTDOWN))
    case UPowerCall(name) => (name == "Suspend" || name == "Hibernate") && h == Sleep(name)
  }

  /** Handling h in s sends r. */
  ghost predicate Sends(s: State, h: Happening, env: Environment, r: Remote) {
    Sent(r) in Added(s, Step(s, h, env))
  }

  lemma {:induction false} VisibleOfNew(before: seq<Effect>, after: seq<Effect>)
    requires before <= after
    ensures Visible(after) == Visible(before) + Visible(New(before, after))
    decreases |after|
  {
    if |before| < |after| {
      var rest, last := after[..|after| - 1], after[|after| - 1];
      VisibleOfNew(before, rest);
      var added := New(before, after);
      assert added == New(before, rest) + [last];
      assert Visible(added) == Visible(New(before, rest)) + if last.Assigned? then [] else [last] by {
        assert added[..|added| - 1] == New(before, rest);
      }
    } else {
      assert before == after && New(before, after) == [];
    }
  }

  lemma {:induction false} VisibleMembers(log: seq<Effect>, e: Effect)
    ensures e in Visible(log) <==> e in log && !e.Assigned?
  {
    if log != [] {
      VisibleMembers(log[..|log| - 1], e);
      assert log == log[..|log| - 1] + [log[|log| - 1]];
    }
  }

  lemma EmitsDecides(s: State, h: Happening, env: Environment, effects: seq<Effect>, e: Effect)
    requires Emits(s, h, env, effects) && !e.Assigned?
    ensures e in Added(s, Step(s, h, env)) <==> e in effects
  {
    hide Visible, New, Step;
    var t := Step(s, h, env);
    LogGrows(s, h, env);
    VisibleOfNew(s.log, t.log);
    VisibleMembers(Added(s, t), e);
    assert Visible(Added(s, t)) == Visible(t.log)[|Visible(s.log)|..] == effects;
  }

  /** A call sends its own session call, sleeping its own call, a failed reply its fallback, and nothing
      else sends anything. */
  lemma SendsIff(s: State, h: Happening, env: Environment, r: Remote)
    requires Enabled(s, h)
    ensures Sends(s, h, env, r) <==>
              || (h.Call? && r == SessionCall(h.action))
              || (h.Sleep? && r == LogindCall(h.name))
              || (h.Reply? && h.failed && Fallback(h.remote, env) == Some(r))
  {
    hide Emits, Step, Fallback;
    var canceled := if s.pending == NONE then [] else [Canceled];
    match h
    case Open(action, inhibitors, interactive) => OpenSendsNothing(s, action, inhibitors, interactive, env, r);
    case Close => CancelAndCloseEmit(s, env); EmitsDecides(s, h, env, [CancelRequested, Closed], Sent(r));
    case Call(a) => CallEmits(s, a, env); EmitsDecides(s, h, env, canceled + [Sent(SessionCall(a))], Sent(r));
    case Sleep(n) => SleepEmits(s, n, env); EmitsDecides(s, h, env, canceled + [Sent(LogindCall(n))], Sent(r));
    case LockScreen(prompt, canLock) =>
      LockEmits(s, prompt, canLock, env);
      EmitsDecides(s, h, env, canceled + [if canLock then LockRequested(prompt) else ScreensaverRequested], Sent(r));
    case CancelAction => CancelAndCloseEmit(s, env); EmitsDecides(s, h, env, [Canceled], Sent(r));
    case Reply(q, failed) => ReplySends(s, q, failed, env, r);
  }

  lemma OpenSendsNothing(s: State, action: Action, inhibitors: bool, interactive: bool, env: Environment, r: Remote)
    ensures !Sends(s, Open(action, inhibitors, interactive), env, r)
  {
    hide Emits, Step;
    var h := Open(action, inhibitors, interactive);
    if IsKnown(action) {
      OpenEmits(s, action, inhibitors, interactive, env);
      EmitsDecides(s, h, env,
        if s.pending == action || (s.pending == NONE && !inhibitors && !interactive) then [Confirmed(action), Closed]
        else if s.pending != NONE then []
        else if inhibitors then [Requested(action, true)]
        else [Canceled, Requested(action, false)], Sent(r));
    } else {
      UnknownOpenEmits(s, action, inhibitors, interactive, env);
      EmitsDecides(s, h, env,
        if s.pending == NONE && !inhibitors && (interactive || action == NONE) then [Canceled] else [], Sent(r));
    }
  }

  lemma ReplySends(s: State, q: Remote, failed: bool, env: Environment, r: Remote)
    ensures Sends(s, Reply(q, failed), env, r) <==> failed && Fallback(q, env) == Some(r)
  {
    hide Emits, Step, Fallback;
    if failed {
      FailureEmits(s, q, env);
      EmitsDecides(s, Reply(q, true), env, if Fallback(q, env).Some? then [Sent(Fallback(q, env).value)] else [],
        Sent(r));
    } else {
      OtherReplyEmits(s, q, false, env);
      EmitsDecides(s, Reply(q, false), env, [], Sent(r));
    }
  }

  /** A fallback serves what the failed call served. */
  lemma FallbackServes(q: Remote, env: Environment, h: Happening)
    requires Fallback(q, env).Some? && Serves(q, h)
    ensures Serves(Fallback(q, env).value, h)
  {
  }

  lemma AwaitedWasSent(s: State, h: Happening, env: Environment, r: Remote)
    requires Enabled(s, h) && r in Step(s, h, env).awaited
    ensures r in s.awaited || Sends(s, h, env, r)
  {
    hide Sends, Fallback;
    SendsIff(s, h, env, r);
  }

  /** At every point of every run, what is awaited was asked for earlier... */
  lemma {:induction false} AwaitedServes(ss: seq<State>, hs: seq<Happening>, k: nat, env: Environment, r: Remote)
    requires IsRun(ss, hs, env) && k <= |hs| && r in ss[k].awaited
    ensures exists j | 0 <= j < k :: Serves(r, hs[j])
    decreases k, 0
  {
    hide Step, Sends, Serves, Fallback;
    if k > 0 {
      AwaitedWasSent(ss[k - 1], hs[k - 1], env, r);
      if Sends(ss[k - 1], hs[k - 1], env, r) {
        SentServes(ss, hs, k - 1, env, r);
      } else {
        AwaitedServes(ss, hs, k - 1, env, r);
      }
    }
  }

  /** ... and whatever is sent carries out what the user asked for: at once, or as the fallback for a call
      that carried out the same and has just failed. So only a shutdown powers the machine off. */
  lemma {:induction false} SentServes(ss: seq<State>, hs: seq<Happening>, i: nat, env: Environment, r: Remote)
    requires IsRun(ss, hs, env) && i < |hs| && Sends(ss[i], hs[i], env, r)
    ensures exists j | 0 <= j <= i :: Serves(r, hs[j])
                                      && (j < i ==> hs[i].Reply? && hs[i].failed && Serves(hs[i].remote, hs[j]))
    decreases i, 1
  {
    hide Step, Sends, Fallback;
    SendsIff(ss[i], hs[i], env, r);
    if hs[i].Reply? {
      AwaitedServes(ss, hs, i, env, hs[i].remote);
      var j :| 0 <= j < i && Serves(hs[i].remote, hs[j]);
      FallbackServes(hs[i].remote, env, hs[j]);
    } else {
      assert Serves(r, hs[i]);
    }
  }

  /** The answers to r among the first k happenings. */
  function Answers(hs: seq<Happening>, k: nat, r: Remote): nat
    requires k <= |hs|
  {
    if k == 0 then 0 else Answers(hs, k - 1, r) + if hs[k - 1].Reply? && hs[k - 1].remote == r then 1 else 0
  }

  /** The counts of what was sent and of what is awaited differ as before. */
  ghost predicate Settles(s: State, t: State, r: Remote) {
    multiset(t.log)[Sent(r)] + s.awaited[r] == multiset(s.log)[Sent(r)] + t.awaited[r]
  }

  lemma SettlesItself(s: State, r: Remote)
    ensures Settles(s, s, r)
  {
  }

  lemma SettlesOn(s: State, t: State, u: State, r: Remote)
    requires Settles(s, t, r) && Settles(t, u, r)
    ensures Settles(s, u, r)
  {
  }

  lemma NoteSettles(s: State, e: Effect, r: Remote)
    requires e != Sent(r)
    ensures Settles(s, Note(s, e), r)
  {
  }

  lemma AssignSettles(s: State, cause: Cause, a: Action, r: Remote)
    ensures Settles(s, Assign(s, cause, a), r)
  {
  }

  lemma SendSettles(s: State, q: Remote, r: Remote)
    ensures Settles(s, Send(s, q), r)
  {
  }

  lemma CancelSettles(s: State, r: Remote)
    ensures Settles(s, Cancel(s), r) && Settles(s, EnsureCancel(s), r)
  {
    AssignSettles(s, ByCancellation, NONE, r);
    NoteSettles(Assign(s, ByCancellation, NONE), Canceled, r);
  }

  lemma OpenSettles(s: State, action: Action, inhibitors: bool, interactive: bool, r: Remote)
    ensures Settles(s, OnOpen(s, action, inhibitors, interactive), r)
  {
    hide Note, Assign, Cancel, Settles;
    SettlesItself(s, r);
    AssignSettles(s, ByOpen, action, r);
    var s1 := if s.pending == NONE && !interactive && !inhibitors then Assign(s, ByOpen, action) else s;
    if s1.pending == NONE {
      AssignSettles(s1, ByOpen, action, r);
      CancelSettles(s1, r);
      var s2 := if inhibitors then Assign(s1, ByOpen, action) else Cancel(s1);
      NoteSettles(s2, Requested(action, inhibitors), r);
      SettlesOn(s, s1, s2, r);
      SettlesOn(s, s2, Note(s2, Requested(action, inhibitors)), r);
    } else {
      AssignSettles(s1, ByConfirmation, NONE, r);
      NoteSettles(Assign(s1, ByConfirmation, NONE), Confirmed(action), r);
      NoteSettles(Confirm(s1, action), Closed, r);
      SettlesOn(s, s1, Assign(s1, ByConfirmation, NONE), r);
      SettlesOn(s, Assign(s1, ByConfirmation, NONE), Confirm(s1, action), r);
      SettlesOn(s, Confirm(s1, action), Note(Confirm(s1, action), Closed), r);
    }
  }

  lemma FailureSettles(s: State, q: Remote, env: Environment, r: Remote)
    ensures Settles(s, OnFailure(s, q, env), r)
  {
    hide Fallback, Send, Assign;
    AssignSettles(s, ByErrorReply, NONE, r);
    if Fallback(q, env).Some? {
      SendSettles(if q.SessionCall? then Assign(s, ByErrorReply, NONE) else s, Fallback(q, env).value, r);
    }
  }

  lemma StepSettles(s: State, h: Happening, env: Environment, r: Remote)
    requires Enabled(s, h)
    ensures Settles(if h.Reply? then s.(awaited := s.awaited - multiset{h.remote}) else s, Step(s, h, env), r)
  {
    hide Note, Assign, Send, Cancel, EnsureCancel, OnOpen, OnFailure;
    var t := EnsureCancel(s);
    CancelSettles(s, r);
    match h
    case Open(action, inhibitors, interactive) => OpenSettles(s, action, inhibitors, interactive, r);
    case Close => NoteSettles(s, CancelRequested, r); NoteSettles(Note(s, CancelRequested), Closed, r);
    case Call(a) => AssignSettles(t, ByCall, a, r); SendSettles(Assign(t, ByCall, a), SessionCall(a), r);
    case Sleep(name) => SendSettles(t, LogindCall(name), r);
    case LockScreen(prompt, canLock) =>
      NoteSettles(t, if canLock then LockRequested(prompt) else ScreensaverRequested, r);
    case CancelAction =>
    case Reply(q, failed) => FailureSettles(s.(awaited := s.awaited - multiset{q}), q, env, r);
  }

  /** At every point of every run, every remote call was sent as often as it was answered and is awaited. */
  lemma {:induction false} SentIsAnsweredOrAwaited(ss: seq<State>, hs: seq<Happening>, k: nat, env: Environment, r: Remote)
    requires IsRun(ss, hs, env) && k <= |hs|
    ensures multiset(ss[k].log)[Sent(r)] == Answers(hs, k, r) + ss[k].awaited[r]
  {
    hide Step;
    if k > 0 {
      SentIsAnsweredOrAwaited(ss, hs, k - 1, env, r);
      StepSettles(ss[k - 1], hs[k - 1], env, r);
    }
  }
}
