/** The client of one remote scope: creating its proxy, opening and closing the channel, and searches
    and activations that wait for the channel (UnityCore/ScopeProxy.cpp). */
module ScopeProxy {
  import opened Waiting

  datatype Happening =
    | ConnectProxy
    | DisconnectProxy
    | ProxyReply(token: Token, created: bool, remoteConnected: bool)
    | NotifyConnected(remoteConnected: bool)                          // the remote "connected" property
    | ChannelReply(token: Token, channel: string, failed: bool)
    | Requested(kind: Kind, token: Token)                             // Search or Activate
    | TimerFires(i: nat)
    | CancelRequested(number: nat)

  /** The remote operations, with the channel they carry. */
  datatype Remote =
    | CreateCall
    | OpenCall
    | CloseCall(channel: string)
    | RequestCall(i: nat, channel: string)

  datatype State = State(
    hasProxy: bool,
    proxyCreated: bool,            // proxy_created_
    proxyConnected: bool,          // scope_proxy_connected_
    connected: bool,
    channel: string,
    generation: nat,               // of cancel_scope_
    cancelled: set<Token>,
    creations: multiset<Token>,    // outstanding replies, with the cancellable each was started with
    opens: multiset<Token>,
    waiters: seq<Waiter>,
    calls: seq<Remote>)

  const START := State(false, false, false, false, "", 0, {}, multiset{}, multiset{}, [], [])

  // ---------------------------------------------------------------------------------
  // The handlers as functions

  function Note(s: State, r: Remote): State {
    s.(calls := s.calls + [r])
  }

  function Issue(s: State, i: nat): State {
    Note(s, RequestCall(i, s.channel))
  }

  /** The calls of the issued requests. */
  function Sent(issued: seq<nat>, channel: string): seq<Remote> {
    seq(|issued|, k requires 0 <= k < |issued| => RequestCall(issued[k], channel))
  }

  /** Every slot on the connected property runs, with the value true. */
  function RunSlots(s: State): State {
    s.(waiters := SlotsRun(s.waiters, s.cancelled, |s.waiters|),
       calls := s.calls + Sent(Issued(s.waiters, s.cancelled, |s.waiters|), s.channel))
  }

  /** Assigning the connected property notifies only when the value changes; the waiting slots ignore
      the value false. */
  function SetConnected(s: State, value: bool): State {
    var s1 := s.(connected := value);
    if value && !s.connected then RunSlots(s1) else s1
  }

  function Create(s: State): State {
    if s.proxyCreated then s
    else Note(s.(proxyCreated := true, creations := s.creations + multiset{Own(s.generation)}), CreateCall)
  }

  function OpenChannel(s: State): State {
    if s.channel != "" then s
    else Note(s.(opens := s.opens + multiset{Own(s.generation)}), OpenCall)
  }

  function CloseChannel(s: State): State {
    var s1 := if s.channel != "" && s.proxyConnected
              then Note(SetConnected(s, false), CloseCall(s.channel)) else s;
    s1.(channel := "")
  }

  function Destroy(s: State): State {
    var s1 := CloseChannel(s).(hasProxy := false);
    var s2 := s1.(cancelled := s1.cancelled + {Own(s1.generation)}, generation := s1.generation + 1);
    SetConnected(s2, false).(proxyCreated := false, proxyConnected := false)
  }

  function OnNewScope(s: State, created: bool, remoteConnected: bool): State {
    if !created then
      s.(proxyCreated := false, hasProxy := false)
    else
      var s1 := s.(hasProxy := true, proxyConnected := remoteConnected);
      if remoteConnected then OpenChannel(s1) else s1
  }

  function OnConnectedChanged(s: State, remoteConnected: bool): State {
    if remoteConnected == s.proxyConnected then s
    else
      var s1 := CloseChannel(s.(proxyConnected := remoteConnected));
      if remoteConnected then OpenChannel(s1) else SetConnected(s1, false)
  }

  function OnChannelOpened(s: State, channel: string, failed: bool): State {
    if channel == "" || failed then SetConnected(s.(channel := ""), false)
    else SetConnected(s.(channel := channel), true)
  }

  function OnRequest(s: State, kind: Kind, token: Token): State {
    if s.connected then
      Issue(s, |s.waiters|).(waiters := s.waiters + [Waiter(kind, token, false, false, 1, 0)])
    else
      var s1 := Create(s);
      s1.(waiters := s1.waiters + [NewWaiter(kind, token)])
  }

  function OnTimer(s: State, i: nat): State
    requires i < |s.waiters|
  {
    s.(waiters := s.waiters[i := TimedOut(s.waiters[i], s.cancelled)])
  }

  /** Only outstanding replies arrive; the remote property of a missing proxy reads as false; a request
      without a cancellable of its caller takes the present one of the scope. */
  predicate Enabled(s: State, h: Happening) {
    match h
    case ProxyReply(token, _, _) => token in s.creations
    case ChannelReply(token, _, _) => token in s.opens
    case NotifyConnected(remoteConnected) => s.hasProxy || !remoteConnected
    case Requested(kind, token) => kind != Call && (token.Own? ==> token == Own(s.generation))
    case TimerFires(i) => i < |s.waiters| && s.waiters[i].timer
    case _ => true
  }

  function Step(s: State, h: Happening): State
    requires Enabled(s, h)
  {
    match h
    case ConnectProxy => Create(s)
    case DisconnectProxy => Destroy(s)
    case ProxyReply(token, created, remoteConnected) =>
      var s1 := s.(creations := s.creations - multiset{token});
      if token in s.cancelled then s1 else OnNewScope(s1, created, remoteConnected)
    case NotifyConnected(remoteConnected) =>
      // The handler is registered twice.
      OnConnectedChanged(OnConnectedChanged(s, remoteConnected), remoteConnected)
    case ChannelReply(token, channel, failed) =>
      var s1 := s.(opens := s.opens - multiset{token});
      if token in s.cancelled then s1 else OnChannelOpened(s1, channel, failed)
    case Requested(kind, token) => OnRequest(s, kind, token)
    case TimerFires(i) => OnTimer(s, i)
    case CancelRequested(number) => s.(cancelled := s.cancelled + {User(number)})
  }

  /** What the handler of a changed remote property comes down to. */
  lemma ConnectedChange(s: State, remoteConnected: bool)
    requires remoteConnected != s.proxyConnected
    ensures !remoteConnected ==>
              OnConnectedChanged(s, false) == s.(proxyConnected := false, channel := "", connected := false)
    ensures remoteConnected && s.channel == "" ==>
              OnConnectedChanged(s, true) == Note(s.(proxyConnected := true,
                                                     opens := s.opens + multiset{Own(s.generation)}), OpenCall)
    ensures remoteConnected && s.channel != "" ==>
              OnConnectedChanged(s, true) ==
                s.(proxyConnected := true, channel := "", connected := false,
                   opens := s.opens + multiset{Own(s.generation)},
                   calls := s.calls + [CloseCall(s.channel), OpenCall])
  {
    assert s.calls + [CloseCall(s.channel)] + [OpenCall] == s.calls + [CloseCall(s.channel), OpenCall];
  }

  /** Running the doubly registered handler twice has the effect of running it once. */
  lemma HandlerIsIdempotent(s: State, remoteConnected: bool)
    ensures OnConnectedChanged(OnConnectedChanged(s, remoteConnected), remoteConnected)
         == OnConnectedChanged(s, remoteConnected)
  {
    if remoteConnected != s.proxyConnected {
      ConnectedChange(s, remoteConnected);
    }
  }

  /** What the handler of an open reply comes down to: it runs the waiting slots only when the channel
      was not open before. */
  lemma ChannelOpened(s: State, channel: string, failed: bool)
    ensures var t := OnChannelOpened(s, channel, failed);
            if channel == "" || failed then t == s.(channel := "", connected := false)
            else if s.connected then t == s.(channel := channel)
            else
              && t == s.(channel := channel, connected := true, waiters := t.waiters, calls := t.calls)
              && t.calls == s.calls + Sent(Issued(s.waiters, s.cancelled, |s.waiters|), channel)
              && t.waiters == SlotsRun(s.waiters, s.cancelled, |s.waiters|)
  {
  }

  /** What each step comes down to, all helper calls and the double registration taken together. */
  function After(s: State, h: Happening): State
    requires Enabled(s, h)
  {
    match h
    case ConnectProxy =>
      if s.proxyCreated then s
      else s.(proxyCreated := true, creations := s.creations + multiset{Own(s.generation)},
              calls := s.calls + [CreateCall])
    case DisconnectProxy =>
      // Everything but the requests is forgotten, and what is outstanding is cancelled.
      s.(hasProxy := false, proxyCreated := false, proxyConnected := false, connected := false, channel := "",
         generation := s.generation + 1, cancelled := s.cancelled + {Own(s.generation)},
         calls := s.calls + if s.channel != "" && s.proxyConnected then [CloseCall(s.channel)] else [])
    case ProxyReply(token, created, remoteConnected) =>
      var s1 := s.(creations := s.creations - multiset{token});
      if token in s.cancelled then s1
      else if !created then s1.(hasProxy := false, proxyCreated := false)
      else if remoteConnected && s.channel == "" then
        s1.(hasProxy := true, proxyConnected := true,
            opens := s.opens + multiset{Own(s.generation)}, calls := s.calls + [OpenCall])
      else s1.(hasProxy := true, proxyConnected := remoteConnected)
    case NotifyConnected(remoteConnected) =>
      if remoteConnected == s.proxyConnected then s
      else if !remoteConnected then s.(proxyConnected := false, channel := "", connected := false)
      else s.(proxyConnected := true, channel := "", connected := s.connected && s.channel == "",
              opens := s.opens + multiset{Own(s.generation)},
              calls := s.calls + if s.channel != "" then [CloseCall(s.channel), OpenCall] else [OpenCall])
    case ChannelReply(token, channel, failed) =>
      var s1 := s.(opens := s.opens - multiset{token});
      if token in s.cancelled then s1
      else if channel == "" || failed then s1.(channel := "", connected := false)
      else if s.connected then s1.(channel := channel)
      else s1.(channel := channel, connected := true, waiters := SlotsRun(s.waiters, s.cancelled, |s.waiters|),
               calls := s.calls + Sent(Issued(s.waiters, s.cancelled, |s.waiters|), channel))
    case Requested(kind, token) =>
      if s.connected then
        s.(waiters := s.waiters + [Waiter(kind, token, false, false, 1, 0)],
           calls := s.calls + [RequestCall(|s.waiters|, s.channel)])
      else if s.proxyCreated then
        s.(waiters := s.waiters + [Waiter(kind, token, true, true, 0, 0)])
      else
        s.(waiters := s.waiters + [Waiter(kind, token, true, true, 0, 0)], proxyCreated := true,
           creations := s.creations + multiset{Own(s.generation)}, calls := s.calls + [CreateCall])
    case TimerFires(i) => s.(waiters := s.waiters[i := TimedOut(s.waiters[i], s.cancelled)])
    case CancelRequested(number) => s.(cancelled := s.cancelled + {User(number)})
  }

  lemma NotifyIsAfter(s: State, remoteConnected: bool)
    requires s.hasProxy || !remoteConnected
    ensures Step(s, NotifyConnected(remoteConnected)) == After(s, NotifyConnected(remoteConnected))
  {
    HandlerIsIdempotent(s, remoteConnected);
    if remoteConnected != s.proxyConnected {
      hide OnConnectedChanged;
      ConnectedChange(s, remoteConnected);
    }
  }

  lemma ProxyReplyIsAfter(s: State, h: Happening)
    requires Enabled(s, h) && h.ProxyReply?
    ensures Step(s, h) == After(s, h)
  {
    hide SlotsRun, Issued, Sent, TimedOut, OnConnectedChanged, OnChannelOpened, Destroy, Create, OnRequest, OnTimer;
  }

  lemma ChannelReplyIsAfter(s: State, h: Happening)
    requires Enabled(s, h) && h.ChannelReply?
    ensures Step(s, h) == After(s, h)
  {
    hide OnChannelOpened, SlotsRun, Issued, Sent, TimedOut;
    hide OnConnectedChanged, OnNewScope, Destroy, Create, OnRequest, OnTimer;
    ChannelOpened(s.(opens := s.opens - multiset{h.token}), h.channel, h.failed);
  }

  lemma StepIsAfter(s: State, h: Happening)
    requires Enabled(s, h)
    ensures Step(s, h) == After(s, h)
  {
    hide SlotsRun, Issued, Sent, TimedOut, OnConnectedChanged, OnNewScope, OnChannelOpened;
    match h
    case NotifyConnected(remoteConnected) => NotifyIsAfter(s, remoteConnected);
    case ProxyReply(_, _, _) => ProxyReplyIsAfter(s, h);
    case ChannelReply(_, _, _) => ChannelReplyIsAfter(s, h);
    case _ =>
  }

  /** A request after the scope was disconnected asks for a new proxy. */
  lemma RequestAfterDisconnectCreates(s: State, kind: Kind, token: Token)
    requires kind != Call && (token.Own? ==> token == Own(s.generation + 1))
    ensures var t := Step(s, DisconnectProxy);
            && Enabled(t, Requested(kind, token))
            && Step(t, Requested(kind, token)).calls == t.calls + [CreateCall]
  {
    hide Step;
    StepIsAfter(s, DisconnectProxy);
    StepIsAfter(Step(s, DisconnectProxy), Requested(kind, token));
  }

  // ---------------------------------------------------------------------------------
  // The object

  class Proxy {
    var hasProxy: bool
    var proxyCreated: bool
    var proxyConnected: bool
    var connected: bool
    var channel: string
    var generation: nat
    var cancelled: set<Token>
    ghost var creations: multiset<Token>
    ghost var opens: multiset<Token>
    var waiters: seq<Waiter>
    ghost var calls: seq<Remote>

    ghost function Now(): State
      reads this
    {
      State(hasProxy, proxyCreated, proxyConnected, connected, channel, generation, cancelled,
            creations, opens, waiters, calls)
    }

    constructor ()
      ensures Now() == START
    {
      hasProxy, proxyCreated, proxyConnected, connected, channel := false, false, false, false, "";
      generation, cancelled, creations, opens, waiters, calls := 0, {}, multiset{}, multiset{}, [], [];
    }

    method AssignConnected(value: bool)
      modifies this
      ensures Now() == SetConnected(old(Now()), value)
    {
      var before := connected;
      connected := value;
      if !value || before {
        return;
      }
      RunAllSlots();
    }

    method RunAllSlots()
      modifies `waiters, `calls
      ensures Now() == RunSlots(old(Now()))
    {
      ghost var ws, sent := waiters, calls;
      for i := 0 to |waiters|
        invariant |waiters| == |ws| && waiters == SlotsRun(ws, cancelled, i)
        invariant calls == sent + Sent(Issued(ws, cancelled, i), channel)
      {
        var w := waiters[i];
        if w.slot {
          if w.token !in cancelled {
            calls := calls + [RequestCall(i, channel)];
            w := w.(issued := w.issued + 1);
          }
          waiters := waiters[i := w.(timer := false, slot := false)];
        }
        assert calls == sent + Sent(Issued(ws, cancelled, i + 1), channel);
      }
    }

    method CreateProxy()
      modifies this
      ensures Now() == Create(old(Now()))
    {
      if proxyCreated {
        return;
      }
      proxyCreated := true;
      creations := creations + multiset{Own(generation)};
      calls := calls + [CreateCall];
    }

    method OpenTheChannel()
      modifies this
      ensures Now() == OpenChannel(old(Now()))
    {
      if channel != "" {
        return;
      }
      opens := opens + multiset{Own(generation)};
      calls := calls + [OpenCall];
    }

    method CloseTheChannel()
      modifies this
      ensures Now() == CloseChannel(old(Now()))
    {
      if channel != "" && proxyConnected {
        AssignConnected(false);
        calls := calls + [CloseCall(channel)];
      }
      channel := "";
    }

    method DestroyProxy()
      modifies this
      ensures Now() == Destroy(old(Now()))
    {
      hide CloseChannel, SetConnected;
      CloseTheChannel();
      hasProxy := false;
      cancelled := cancelled + {Own(generation)};
      generation := generation + 1;
      AssignConnected(false);
      proxyCreated := false;
      proxyConnected := false;
    }

    method OnProxyReply(token: Token, created: bool, remoteConnected: bool)
      requires Enabled(Now(), ProxyReply(token, created, remoteConnected))
      modifies this
      ensures Now() == Step(old(Now()), ProxyReply(token, created, remoteConnected))
    {
      creations := creations - multiset{token};
      if token in cancelled {
        return;
      }
      if !created {
        proxyCreated := false;
        hasProxy := false;
        return;
      }
      hasProxy := true;
      proxyConnected := remoteConnected;
      if proxyConnected {
        OpenTheChannel();
      }
    }

    method OnScopeConnectedChanged(remoteConnected: bool)
      modifies this
      ensures Now() == OnConnectedChanged(old(Now()), remoteConnected)
    {
      if remoteConnected != proxyConnected {
        proxyConnected := remoteConnected;
        CloseTheChannel();
        if remoteConnected {
          OpenTheChannel();
        } else {
          AssignConnected(false);
        }
      }
    }

    // The handler is registered twice for the same notification.
    method OnNotifyConnected(remoteConnected: bool)
      requires Enabled(Now(), NotifyConnected(remoteConnected))
      modifies this
      ensures Now() == Step(old(Now()), NotifyConnected(remoteConnected))
    {
      OnScopeConnectedChanged(remoteConnected);
      OnScopeConnectedChanged(remoteConnected);
    }

    method OnChannelReply(token: Token, openedChannel: string, failed: bool)
      requires Enabled(Now(), ChannelReply(token, openedChannel, failed))
      modifies this
      ensures Now() == Step(old(Now()), ChannelReply(token, openedChannel, failed))
    {
      opens := opens - multiset{token};
      if token in cancelled {
        return;
      }
      if openedChannel == "" || failed {
        channel := "";
        AssignConnected(false);
        return;
      }
      channel := openedChannel;
      AssignConnected(true);
    }

    method Request(kind: Kind, token: Token)
      modifies this
      ensures Now() == OnRequest(old(Now()), kind, token)
    {
      if !connected {
        if !proxyCreated {
          CreateProxy();
        }
        waiters := waiters + [NewWaiter(kind, token)];
        return;
      }
      calls := calls + [RequestCall(|waiters|, channel)];
      waiters := waiters + [Waiter(kind, token, false, false, 1, 0)];
    }

    method OnWaitTimeout(i: nat)
      requires i < |waiters| && waiters[i].timer
      modifies this
      ensures Now() == OnTimer(old(Now()), i)
    {
      var w := waiters[i];
      if w.token !in cancelled {
        w := w.(timedOut := w.timedOut + 1);
      }
      waiters := waiters[i := w.(timer := false, slot := false)];
    }
  }

  // ---------------------------------------------------------------------------------
  // Whole runs

  ghost predicate IsRun(ss: seq<State>, hs: seq<Happening>) {
    && |ss| == |hs| + 1
    && ss[0] == START
    && forall i | 0 <= i < |hs| :: Enabled(ss[i], hs[i]) && ss[i + 1] == Step(ss[i], hs[i])
  }

  /** Every remote search or activation carries a channel. */
  ghost predicate CallsCarryChannel(s: State) {
    forall k | 0 <= k < |s.calls| && s.calls[k].RequestCall? :: s.calls[k].channel != ""
  }

  function CountCalls(calls: seq<Remote>, i: nat): nat {
    if calls == [] then 0 else
      var last := calls[|calls| - 1];
      CountCalls(calls[..|calls| - 1], i) + if last.RequestCall? && last.i == i then 1 else 0
  }

  /** The remote searches and activations are the issued requests, each as often as it was issued. */
  ghost predicate CallsMatch(s: State) {
    forall i: nat :: CountCalls(s.calls, i) == if i < |s.waiters| then s.waiters[i].issued else 0
  }

  lemma CountNote(s: State, r: Remote, i: nat)
    ensures CountCalls(Note(s, r).calls, i) == CountCalls(s.calls, i) + if r.RequestCall? && r.i == i then 1 else 0
  {
    assert (s.calls + [r])[..|s.calls|] == s.calls;
  }

  lemma NoteKeepsMatch(s: State, r: Remote)
    requires CallsMatch(s) && !r.RequestCall?
    ensures CallsMatch(Note(s, r))
  {
    forall i: nat ensures CountCalls(Note(s, r).calls, i) == CountCalls(s.calls, i) {
      CountNote(s, r, i);
    }
  }

  lemma OneMoreRequest(calls: seq<Remote>, r: Remote, i: nat)
    ensures CountCalls(calls + [r], i) == CountCalls(calls, i) + if r.RequestCall? && r.i == i then 1 else 0
  {
    assert (calls + [r])[..|calls|] == calls;
  }

  lemma {:induction false} CountSent(calls: seq<Remote>, issued: seq<nat>, channel: string, i: nat)
    ensures CountCalls(calls + Sent(issued, channel), i) == CountCalls(calls, i) + multiset(issued)[i]
    decreases |issued|
  {
    hide CountCalls;
    if issued == [] {
      assert calls + Sent(issued, channel) == calls;
    } else {
      var earlier, last := issued[..|issued| - 1], issued[|issued| - 1];
      CountSent(calls, earlier, channel, i);
      assert issued == earlier + [last];
      assert calls + Sent(issued, channel) == calls + Sent(earlier, channel) + [RequestCall(last, channel)];
      OneMoreRequest(calls + Sent(earlier, channel), RequestCall(last, channel), i);
    }
  }

  lemma SlotsKeepMatch(s: State)
    requires CallsMatch(s)
    ensures CallsMatch(RunSlots(s))
  {
    var n := |s.waiters|;
    IssuedCounts(s.waiters, s.cancelled);
    forall i: nat ensures CountCalls(RunSlots(s).calls, i) == if i < n then RunSlots(s).waiters[i].issued else 0 {
      CountSent(s.calls, Issued(s.waiters, s.cancelled, n), s.channel, i);
    }
  }

  lemma MatchDepends(s: State, t: State)
    requires CallsMatch(s) && t.calls == s.calls && |t.waiters| == |s.waiters|
    requires forall i | 0 <= i < |s.waiters| :: t.waiters[i].issued == s.waiters[i].issued
    ensures CallsMatch(t)
  {
  }

  lemma SetConnectedKeepsMatch(s: State, value: bool)
    requires CallsMatch(s)
    ensures CallsMatch(SetConnected(s, value))
  {
    hide CallsMatch, RunSlots;
    MatchDepends(s, s.(connected := value));
    SlotsKeepMatch(s.(connected := value));
  }

  lemma OpenKeepsMatch(s: State)
    requires CallsMatch(s)
    ensures CallsMatch(OpenChannel(s)) && CallsMatch(Create(s))
  {
    var s1 := s.(opens := s.opens + multiset{Own(s.generation)});
    var s2 := s.(proxyCreated := true, creations := s.creations + multiset{Own(s.generation)});
    NoteKeepsMatch(s1, OpenCall);
    NoteKeepsMatch(s2, CreateCall);
  }

  lemma CloseKeepsMatch(s: State)
    requires CallsMatch(s)
    ensures CallsMatch(CloseChannel(s))
  {
    hide CallsMatch, RunSlots;
    SetConnectedKeepsMatch(s, false);
    NoteKeepsMatch(SetConnected(s, false), CloseCall(s.channel));
    var s1 := if s.channel != "" && s.proxyConnected
              then Note(SetConnected(s, false), CloseCall(s.channel)) else s;
    MatchDepends(s1, s1.(channel := ""));
  }

  lemma ConnectedChangeKeepsMatch(s: State, remoteConnected: bool)
    requires CallsMatch(s)
    ensures CallsMatch(OnConnectedChanged(s, remoteConnected))
  {
    hide CallsMatch, CloseChannel, OpenChannel, SetConnected;
    var s1 := s.(proxyConnected := remoteConnected);
    MatchDepends(s, s1);
    CloseKeepsMatch(s1);
    OpenKeepsMatch(CloseChannel(s1));
    SetConnectedKeepsMatch(CloseChannel(s1), false);
  }

  lemma RequestKeepsMatch(s: State, kind: Kind, token: Token)
    requires CallsMatch(s)
    ensures CallsMatch(OnRequest(s, kind, token))
  {
    OpenKeepsMatch(s);
    var i := |s.waiters|;
    forall j: nat ensures CountCalls(Issue(s, i).calls, j) == CountCalls(s.calls, j) + if i == j then 1 else 0 {
      CountNote(s, RequestCall(i, s.channel), j);
    }
  }

  /** Every handler issues exactly the remote calls that the requests record. */
  lemma StepKeepsMatch(s: State, h: Happening)
    requires CallsMatch(s) && Enabled(s, h)
    ensures CallsMatch(Step(s, h))
  {
    hide CallsMatch, SetConnected, CloseChannel, OpenChannel;
    match h
    case ConnectProxy => OpenKeepsMatch(s);
    case DisconnectProxy =>
      CloseKeepsMatch(s);
      var s1 := CloseChannel(s).(hasProxy := false);
      var s2 := s1.(cancelled := s1.cancelled + {Own(s1.generation)}, generation := s1.generation + 1);
      MatchDepends(CloseChannel(s), s2);
      SetConnectedKeepsMatch(s2, false);
      MatchDepends(SetConnected(s2, false), Step(s, h));
    case ProxyReply(token, created, remoteConnected) =>
      var s1 := s.(creations := s.creations - multiset{token});
      var s2 := s1.(hasProxy := true, proxyConnected := remoteConnected);
      MatchDepends(s, s1);
      MatchDepends(s, s2);
      OpenKeepsMatch(s2);
      MatchDepends(s1, s1.(proxyCreated := false, hasProxy := false));
    case NotifyConnected(remoteConnected) =>
      ConnectedChangeKeepsMatch(s, remoteConnected);
      ConnectedChangeKeepsMatch(OnConnectedChanged(s, remoteConnected), remoteConnected);
    case ChannelReply(token, channel, failed) =>
      var s1 := s.(opens := s.opens - multiset{token});
      MatchDepends(s, s1);
      MatchDepends(s, s1.(channel := channel));
      MatchDepends(s, s1.(channel := ""));
      SetConnectedKeepsMatch(s1.(channel := channel), true);
      SetConnectedKeepsMatch(s1.(channel := ""), false);
    case Requested(kind, token) => RequestKeepsMatch(s, kind, token);
    case TimerFires(i) => MatchDepends(s, Step(s, h));
    case CancelRequested(_) => MatchDepends(s, Step(s, h));
  }

  /** Exactly the own cancellables of earlier generations are cancelled. */
  ghost predicate Generations(s: State) {
    && (forall g: nat :: Own(g) in s.cancelled <==> g < s.generation)
    && (forall t | t in s.creations :: t.Own? && t.generation <= s.generation)
    && (forall t | t in s.opens :: t.Own? && t.generation <= s.generation)
  }

  ghost predicate Inv(s: State) {
    && (s.connected <==> s.channel != "")
    && (s.connected ==> s.hasProxy)
    && (s.proxyConnected ==> s.hasProxy)
    && Generations(s)
    && s.creations[Own(s.generation)] == (if s.proxyCreated && !s.hasProxy then 1 else 0)
    && (s.hasProxy ==> s.proxyCreated)
    && (s.opens[Own(s.generation)] > 0 ==> s.hasProxy)
    && CallsCarryChannel(s)
    && (forall i | 0 <= i < |s.waiters| :: IsLive(s.waiters[i]) || IsSettled(s.waiters[i]))
    && (s.connected ==> forall i | 0 <= i < |s.waiters| :: IsSettled(s.waiters[i]))
  }

  /** An outstanding reply that is not cancelled belongs to the present generation. */
  lemma UncancelledIsPresent(s: State, token: Token)
    requires Generations(s) && token !in s.cancelled && (token in s.creations || token in s.opens)
    ensures token == Own(s.generation)
  {
  }

  lemma CreateKeepsInv(s: State)
    requires Inv(s)
    ensures Inv(Create(s))
  {
  }

  lemma DestroyKeepsInv(s: State)
    requires Inv(s)
    ensures Inv(Destroy(s))
  {
    var t := Destroy(s);
    assert Own(t.generation) !in s.creations && Own(t.generation) !in s.opens;
  }

  lemma ProxyReplyKeepsInv(s: State, token: Token, created: bool, remoteConnected: bool)
    requires Inv(s) && token in s.creations
    ensures Inv(Step(s, ProxyReply(token, created, remoteConnected)))
  {
    if token !in s.cancelled {
      UncancelledIsPresent(s, token);
    }
  }

  lemma NotifyKeepsInv(s: State, remoteConnected: bool)
    requires Inv(s) && (s.hasProxy || !remoteConnected)
    ensures Inv(Step(s, NotifyConnected(remoteConnected)))
  {
    hide RunSlots;
    HandlerIsIdempotent(s, remoteConnected);
  }

  lemma SlotsCarryChannel(s: State)
    requires s.channel != "" && CallsCarryChannel(s)
    ensures CallsCarryChannel(RunSlots(s))
  {
  }

  lemma CarriedDependsOnCalls(s: State, t: State)
    requires CallsCarryChannel(s) && t.calls == s.calls
    ensures CallsCarryChannel(t)
  {
  }

  lemma AnsweredKeepsInv(s: State, token: Token)
    requires Inv(s)
    ensures Inv(s.(opens := s.opens - multiset{token}))
  {
  }

  lemma OpenedKeepsInv(s: State, channel: string, failed: bool)
    requires Inv(s) && s.hasProxy
    ensures Inv(OnChannelOpened(s, channel, failed))
  {
    hide CallsCarryChannel, Generations, Signalled, Issued;
    var t := OnChannelOpened(s, channel, failed);
    if channel != "" && !failed {
      var s1 := s.(channel := channel, connected := true);
      CarriedDependsOnCalls(s, s1);
      GenerationsDepend(s, s1);
      SlotsCarryChannel(s1);
      GenerationsDepend(s, t);
      forall i | 0 <= i < |s.waiters| && !s.connected ensures IsSettled(Signalled(s.waiters[i], s.cancelled)) {
        SignalSettles(s.waiters[i], s.cancelled);
      }
    } else {
      CarriedDependsOnCalls(s, t);
      GenerationsDepend(s, t);
    }
  }

  lemma SignalSettles(w: Waiter, cancelled: set<Token>)
    requires IsLive(w) || IsSettled(w)
    ensures IsSettled(Signalled(w, cancelled))
  {
  }

  lemma GenerationsDepend(s: State, t: State)
    requires Generations(s) && t.generation == s.generation && t.cancelled == s.cancelled
    requires t.creations == s.creations && t.opens == s.opens
    ensures Generations(t)
  {
  }

  lemma ChannelReplyKeepsInv(s: State, token: Token, channel: string, failed: bool)
    requires Inv(s) && token in s.opens
    ensures Inv(Step(s, ChannelReply(token, channel, failed)))
  {
    AnsweredKeepsInv(s, token);
    if token !in s.cancelled {
      UncancelledIsPresent(s, token);
      assert s.hasProxy;
      hide Inv, OnChannelOpened;
      OpenedKeepsInv(s.(opens := s.opens - multiset{token}), channel, failed);
    }
  }

  lemma RequestKeepsInv(s: State, kind: Kind, token: Token)
    requires Inv(s)
    ensures Inv(OnRequest(s, kind, token))
  {
    CreateKeepsInv(s);
  }

  /** The life-cycle invariant, for every handler in every state that satisfies it. */
  lemma StepKeepsInv(s: State, h: Happening)
    requires Inv(s) && Enabled(s, h)
    ensures Inv(Step(s, h))
  {
    match h
    case ConnectProxy => CreateKeepsInv(s);
    case DisconnectProxy => DestroyKeepsInv(s);
    case ProxyReply(token, created, remoteConnected) => ProxyReplyKeepsInv(s, token, created, remoteConnected);
    case NotifyConnected(remoteConnected) => NotifyKeepsInv(s, remoteConnected);
    case ChannelReply(token, channel, failed) => ChannelReplyKeepsInv(s, token, channel, failed);
    case Requested(kind, token) => RequestKeepsInv(s, kind, token);
    case _ =>
  }

  lemma {:induction false} RunKeepsInv(ss: seq<State>, hs: seq<Happening>, k: nat)
    requires IsRun(ss, hs) && k <= |hs|
    ensures Inv(ss[k]) && CallsMatch(ss[k])
  {
    hide Inv, Step, Enabled, CallsMatch;
    if k > 0 {
      RunKeepsInv(ss, hs, k - 1);
      StepKeepsInv(ss[k - 1], hs[k - 1]);
      StepKeepsMatch(ss[k - 1], hs[k - 1]);
    } else {
      StartIsFine();
    }
  }

  lemma StartIsFine()
    ensures Inv(START) && CallsMatch(START)
  {
  }

  /** In every run: connected exactly when there is a channel, connected only with a proxy, at most one
      uncancelled creation outstanding, no search or activation without a channel, and for each request at
      most one of a remote call and a timeout. */
  lemma RunIsSafe(ss: seq<State>, hs: seq<Happening>, k: nat)
    requires IsRun(ss, hs) && k <= |hs|
    ensures ss[k].connected <==> ss[k].channel != ""
    ensures ss[k].connected ==> ss[k].hasProxy
    ensures forall t, t' | t in ss[k].creations && t' in ss[k].creations && t !in ss[k].cancelled && t' !in ss[k].cancelled ::
              t == t' && ss[k].creations[t] == 1
    ensures forall c | c in ss[k].calls && c.RequestCall? :: c.channel != ""
    ensures forall i | 0 <= i < |ss[k].waiters| ::
              && CountCalls(ss[k].calls, i) == ss[k].waiters[i].issued
              && ss[k].waiters[i].issued + ss[k].waiters[i].timedOut <= 1
  {
    RunKeepsInv(ss, hs, k);
    forall t | t in ss[k].creations && t !in ss[k].cancelled ensures t == Own(ss[k].generation) {
      UncancelledIsPresent(ss[k], t);
    }
  }

  /** The reply h opens the channel in state s. */
  predicate Opens(s: State, h: Happening) {
    h.ChannelReply? && h.token !in s.cancelled && h.channel != "" && !h.failed && !s.connected
  }

  /** What the step from s by h does to the requests: an opening channel runs every slot, a timer ends
      its own request, a new request joins, and nothing else touches them. */
  function TurnOf(s: State, h: Happening): Turn {
    match h
    case ChannelReply(_, _, _) => if Opens(s, h) then Slots(s.cancelled) else Idle
    case Requested(kind, token) =>
      Joined(if s.connected then Waiter(kind, token, false, false, 1, 0) else Waiter(kind, token, true, true, 0, 0))
    case TimerFires(i) => Timer(i, s.cancelled)
    case _ => Idle
  }

  lemma StepWaiters(s: State, h: Happening)
    requires Enabled(s, h)
    ensures Step(s, h).waiters == Played(s.waiters, TurnOf(s, h))
  {
    hide Step, SlotsRun, TimedOut;
    StepIsAfter(s, h);
  }

  /** What ends the wait of the i-th request in state s: its timer, or the channel becoming open. */
  predicate EndsWait(s: State, h: Happening, i: nat) {
    h == TimerFires(i) || Opens(s, h)
  }

  /** Every search or activation that waits at p, in every run: the first happening r that can end its wait
      does, with exactly one answer or, when it had been cancelled by then, none; at no point q before
      and at no point q after does anything about it change, and neither timer nor slot is left. */
  lemma RequestEndsOnce(ss: seq<State>, hs: seq<Happening>, p: nat, r: nat, q: nat, i: nat)
    requires IsRun(ss, hs) && p <= r < |hs| && p <= q <= |hs| && i < |ss[p].waiters| && IsLive(ss[p].waiters[i])
    requires EndsWait(ss[r], hs[r], i) && forall k | p <= k < r :: !EndsWait(ss[k], hs[k], i)
    ensures i < |ss[q].waiters|
    ensures q <= r ==> ss[q].waiters[i] == ss[p].waiters[i]
    ensures q > r ==>
              && ss[q].waiters[i] == Ended(ss[p].waiters[i], TurnOf(ss[r], hs[r]))
              && IsSettled(ss[q].waiters[i])
              && ss[q].waiters[i].issued + ss[q].waiters[i].timedOut ==
                   if ss[p].waiters[i].token in ss[r].cancelled then 0 else 1
  {
    hide Step, Enabled, Played, IsLive, IsSettled, Opens;
    var wss := seq(|ss|, k requires 0 <= k < |ss| => ss[k].waiters);
    var turns := seq(|hs|, k requires 0 <= k < |hs| => TurnOf(ss[k], hs[k]));
    forall k | 0 <= k < |hs| ensures wss[k + 1] == Played(wss[k], turns[k]) {
      StepWaiters(ss[k], hs[k]);
    }
    forall k | 0 <= k < |hs| ensures Ends(turns[k], i) <==> EndsWait(ss[k], hs[k], i) {
      OpensIsReply(ss[k], hs[k]);
    }
    FirstTurnEnds(wss, turns, p, r, q, i);
  }

  lemma OpensIsReply(s: State, h: Happening)
    ensures Opens(s, h) ==> h.ChannelReply?
  {
  }

  /** The channel can be open although the remote scope has gone away: an open reply of the same
      generation that arrives after the remote side disconnected still sets the channel. */
  lemma LateChannelReplyConnects()
    ensures var t := Own(0);
            var hs := [ConnectProxy, ProxyReply(t, true, true), NotifyConnected(false), ChannelReply(t, "c", false)];
            exists ss: seq<State> :: IsRun(ss, hs) && ss[4].connected && !ss[4].proxyConnected
  {
    var t := Own(0);
    var hs := [ConnectProxy, ProxyReply(t, true, true), NotifyConnected(false), ChannelReply(t, "c", false)];
    var s1 := Step(START, hs[0]);
    var s2 := Step(s1, hs[1]);
    var s3 := Step(s2, hs[2]);
    var s4 := Step(s3, hs[3]);
    assert IsRun([START, s1, s2, s3, s4], hs);
  }

  /** It happens exactly so: from a state in which an open channel means a connected remote scope, a
      step leads to an open channel with a disconnected scope if and only if it is an uncancelled,
      successful open reply that arrives while the scope is disconnected. */
  lemma ConnectedWithoutRemoteIff(s: State, h: Happening)
    requires Inv(s) && Enabled(s, h) && (s.connected ==> s.proxyConnected)
    ensures Step(s, h).connected && !Step(s, h).proxyConnected
       <==> h.ChannelReply? && h.token !in s.cancelled && h.channel != "" && !h.failed && !s.proxyConnected
  {
    hide Step, Issued, SlotsRun, Sent, TimedOut;
    StepIsAfter(s, h);
    if h.ProxyReply? && h.token !in s.cancelled {
      UncancelledIsPresent(s, h.token);
    }
  }

  // ---- When a request is answered, said of the happenings alone ----

  /** The caller's cancellable number n has been cancelled. */
  ghost predicate Canceled(hs: seq<Happening>, k: nat, n: nat)
    requires k <= |hs|
  {
    exists j | 0 <= j < k :: hs[j] == CancelRequested(n)
  }

  lemma CanceledStep(hs: seq<Happening>, k: nat, n: nat)
    requires k < |hs|
    ensures Canceled(hs, k + 1, n) <==> Canceled(hs, k, n) || hs[k] == CancelRequested(n)
  {
  }

  /** How often the proxy has been destroyed; each time renews the cancellable of the scope. */
  function Disconnects(hs: seq<Happening>, k: nat): nat
    requires k <= |hs|
  {
    if k == 0 then 0 else Disconnects(hs, k - 1) + if hs[k - 1] == DisconnectProxy then 1 else 0
  }

  lemma StepCancels(s: State, h: Happening)
    requires Enabled(s, h)
    ensures Step(s, h).generation == s.generation + (if h == DisconnectProxy then 1 else 0)
    ensures Step(s, h).cancelled == match h
                                    case DisconnectProxy => s.cancelled + {Own(s.generation)}
                                    case CancelRequested(n) => s.cancelled + {User(n)}
                                    case _ => s.cancelled
  {
    hide Step;
    StepIsAfter(s, h);
  }

  lemma {:induction false} CancelledIff(ss: seq<State>, hs: seq<Happening>, k: nat)
    requires IsRun(ss, hs) && k <= |hs|
    ensures forall n :: User(n) in ss[k].cancelled <==> Canceled(hs, k, n)
    ensures ss[k].generation == Disconnects(hs, k)
  {
    hide Step, Enabled, Canceled;
    if k > 0 {
      CancelledIff(ss, hs, k - 1);
      StepCancels(ss[k - 1], hs[k - 1]);
      forall n ensures Canceled(hs, k, n) <==> Canceled(hs, k - 1, n) || hs[k - 1] == CancelRequested(n) {
        CanceledStep(hs, k - 1, n);
      }
    } else {
      forall n ensures !Canceled(hs, 0, n) {
        NothingCanceled(hs, n);
      }
    }
  }

  lemma NothingCanceled(hs: seq<Happening>, n: nat)
    ensures !Canceled(hs, 0, n)
  {
  }

  /** The cancellable of a request made at p is cancelled before r. */
  ghost predicate IsCanceled(hs: seq<Happening>, p: nat, r: nat, token: Token)
    requires p <= r <= |hs|
  {
    match token
    case User(n) => Canceled(hs, r, n)
    case Own(_) => Disconnects(hs, r) > Disconnects(hs, p)
  }

  /** A search or activation made at p while there is no channel: if its first end r is a reply that opens a
      channel it goes out then, if it is its timer it is timed out then, unless its own cancellable was
      cancelled before: by its caller, or for one without, by the proxy being destroyed. */
  lemma RequestIsAnswered(ss: seq<State>, hs: seq<Happening>, p: nat, r: nat, q: nat, kind: Kind, token: Token)
    requires IsRun(ss, hs) && p < r < q <= |hs| && hs[p] == Requested(kind, token) && !ss[p].connected
    requires EndsWait(ss[r], hs[r], |ss[p].waiters|)
    requires forall k | p < k < r :: !EndsWait(ss[k], hs[k], |ss[p].waiters|)
    ensures |ss[p].waiters| < |ss[q].waiters|
    ensures var w := ss[q].waiters[|ss[p].waiters|];
            && w.kind == kind
            && w.issued == (if hs[r].ChannelReply? && !IsCanceled(hs, p, r, token) then 1 else 0)
            && w.timedOut == (if hs[r].TimerFires? && !IsCanceled(hs, p, r, token) then 1 else 0)
  {
    hide Step, Canceled, Inv;
    StepWaiters(ss[p], hs[p]);
    assert IsLive(Waiter(kind, token, true, true, 0, 0));
    RequestEndsOnce(ss, hs, p + 1, r, q, |ss[p].waiters|);
    CancelledIff(ss, hs, p);
    CancelledIff(ss, hs, r);
    if token.Own? {
      OwnIsPresent(ss[p], hs[p]);
      RunKeepsGenerations(ss, hs, r);
    }
    assert EndsWait(ss[r], hs[r], |ss[p].waiters|) ==> hs[r].ChannelReply? || hs[r].TimerFires?;
  }

  lemma OwnIsPresent(s: State, h: Happening)
    requires Enabled(s, h) && h.Requested? && h.token.Own?
    ensures h.token == Own(s.generation)
  {
  }

  lemma RunKeepsGenerations(ss: seq<State>, hs: seq<Happening>, k: nat)
    requires IsRun(ss, hs) && k <= |hs|
    ensures Generations(ss[k])
  {
    hide Step, Enabled;
    RunKeepsInv(ss, hs, k);
  }

  // ---- The remote calls of a step ----

  /** The remote calls that h makes in s, unless it is the reply to an open request. */
  function CallsOf(s: State, h: Happening): seq<Remote> {
    match h
    case ConnectProxy => if s.proxyCreated then [] else [CreateCall]
    case DisconnectProxy => if s.channel != "" && s.proxyConnected then [CloseCall(s.channel)] else []
    case ProxyReply(token, created, remoteConnected) =>
      if token !in s.cancelled && created && remoteConnected && s.channel == "" then [OpenCall] else []
    case NotifyConnected(remoteConnected) =>
      if !remoteConnected || s.proxyConnected then []
      else if s.channel != "" then [CloseCall(s.channel), OpenCall]
      else [OpenCall]
    case Requested(_, _) =>
      if s.connected then [RequestCall(|s.waiters|, s.channel)] else if s.proxyCreated then [] else [CreateCall]
    case _ => []
  }

  lemma StepCalls(s: State, h: Happening)
    requires Enabled(s, h) && !h.ChannelReply?
    ensures Step(s, h).calls == s.calls + CallsOf(s, h)
    ensures h.Requested? ==> Step(s, h).channel == s.channel
  {
    hide Step;
    StepIsAfter(s, h);
  }

  // ---- A request goes out on the channel that is open ----

  /** Every search or activation that a step sends carries the channel that is open after it; they are sent in
      the order in which they were made. */
  ghost predicate CarriesPresent(s: State, t: State) {
    && s.calls <= t.calls
    && (forall k | |s.calls| <= k < |t.calls| && t.calls[k].RequestCall? :: t.calls[k].channel == t.channel != "")
    && (forall j, k | |s.calls| <= j < k < |t.calls| && t.calls[j].RequestCall? && t.calls[k].RequestCall? ::
          t.calls[j].i < t.calls[k].i)
  }

  lemma ReplyCarriesPresent(s: State, h: Happening)
    requires Enabled(s, h) && h.ChannelReply?
    ensures CarriesPresent(s, Step(s, h))
  {
    hide Step, Issued, SlotsRun;
    StepIsAfter(s, h);
    IssuedInOrder(s.waiters, s.cancelled, |s.waiters|);
  }

  lemma AddsCarried(s: State, t: State, added: seq<Remote>)
    requires t.calls == s.calls + added
    requires forall r | r in added && r.RequestCall? :: added == [r] && r.channel == t.channel != ""
    ensures CarriesPresent(s, t)
  {
    forall k | |s.calls| <= k < |t.calls| ensures t.calls[k] == added[k - |s.calls|] && t.calls[k] in added {
    }
  }

  lemma StepCarriesPresent(s: State, h: Happening)
    requires Inv(s) && Enabled(s, h)
    ensures CarriesPresent(s, Step(s, h))
  {
    hide Step, CarriesPresent, CallsCarryChannel, Generations, IsLive, IsSettled;
    if h.ChannelReply? {
      ReplyCarriesPresent(s, h);
    } else {
      StepCalls(s, h);
      AddsCarried(s, Step(s, h), CallsOf(s, h));
    }
  }

  /** In every run, whatever search or activation goes out does so on the channel that is open then. */
  lemma RequestsUsePresentChannel(ss: seq<State>, hs: seq<Happening>, k: nat, c: nat)
    requires IsRun(ss, hs) && k < |hs| && |ss[k].calls| <= c < |ss[k + 1].calls| && ss[k + 1].calls[c].RequestCall?
    ensures ss[k + 1].connected && ss[k + 1].calls[c].channel == ss[k + 1].channel
  {
    hide Step, Enabled, Generations, CallsCarryChannel, IsLive, IsSettled, CallsMatch;
    RunKeepsInv(ss, hs, k);
    RunKeepsInv(ss, hs, k + 1);
    StepCarriesPresent(ss[k], hs[k]);
  }

  // ---- Nothing waits in vain ----

  /** A reply in state s that a creation or an opening has failed. */
  predicate Fails(s: State, h: Happening) {
    match h
    case ProxyReply(token, created, _) => token !in s.cancelled && !created
    case ChannelReply(token, channel, failed) => token !in s.cancelled && (failed || channel == "")
    case _ => false
  }

  lemma StepCreates(s: State, h: Happening)
    requires Enabled(s, h) && Inv(s)
    ensures Step(s, h).proxyCreated <==>
              && h != DisconnectProxy && !(h.ProxyReply? && Fails(s, h))
              && (s.proxyCreated || h == ConnectProxy || h.Requested?)
  {
    hide Step, Generations, CallsCarryChannel, IsLive, IsSettled;
    StepIsAfter(s, h);
  }

  /** After a request, until the scope is disconnected or a creation fails, there is a proxy or one is being
      created, in every run. */
  lemma {:induction false} RequestHasProxy(ss: seq<State>, hs: seq<Happening>, p: nat, q: nat)
    requires IsRun(ss, hs) && p < q <= |hs| && (hs[p].Requested? || hs[p] == ConnectProxy)
    requires forall k | p < k < q :: hs[k] != DisconnectProxy && !(hs[k].ProxyReply? && Fails(ss[k], hs[k]))
    ensures ss[q].proxyCreated && (ss[q].hasProxy || ss[q].creations[Own(ss[q].generation)] == 1)
    decreases q
  {
    hide Step, Enabled, Fails, Generations, CallsCarryChannel, IsLive, IsSettled, CallsMatch;
    RunKeepsInv(ss, hs, q - 1);
    RunKeepsInv(ss, hs, q);
    StepCreates(ss[q - 1], hs[q - 1]);
    if q > p + 1 {
      RequestHasProxy(ss, hs, p, q - 1);
    }
  }

  /** With a proxy and a connected remote scope, there is a channel or one is being opened. */
  ghost predicate OpensOrOpen(s: State) {
    s.proxyConnected && s.channel == "" ==> s.opens[Own(s.generation)] > 0
  }

  lemma StepKeepsOpening(s: State, h: Happening)
    requires Inv(s) && Enabled(s, h) && OpensOrOpen(s) && !(h.ChannelReply? && Fails(s, h))
    ensures OpensOrOpen(Step(s, h))
  {
    hide Step, CallsCarryChannel, IsLive, IsSettled;
    StepIsAfter(s, h);
    if h.ChannelReply? && h.token in s.cancelled {
      assert h.token != Own(s.generation);
    }
  }

  /** In every run without a failed opening, a connected remote scope has a channel or one is being opened. */
  lemma {:induction false} ConnectedScopeHasChannel(ss: seq<State>, hs: seq<Happening>, k: nat)
    requires IsRun(ss, hs) && k <= |hs| && forall j | 0 <= j < k :: !(hs[j].ChannelReply? && Fails(ss[j], hs[j]))
    ensures ss[k].proxyConnected ==> ss[k].connected || ss[k].opens[Own(ss[k].generation)] > 0
    ensures OpensOrOpen(ss[k])
  {
    hide Step, Enabled, Fails, Generations, CallsCarryChannel, IsLive, IsSettled, CallsMatch;
    RunKeepsInv(ss, hs, k);
    if k > 0 {
      RunKeepsInv(ss, hs, k - 1);
      ConnectedScopeHasChannel(ss, hs, k - 1);
      StepKeepsOpening(ss[k - 1], hs[k - 1]);
    }
  }

  // ---------------------------------------------------------------------------------
  // Channels that are never closed

  /** The step gives up an open channel without telling the remote side. */
  predicate Loses(s: State, h: Happening)
    requires Enabled(s, h)
  {
    var t := Step(s, h);
    s.channel != "" && t.channel != s.channel && |s.calls| <= |t.calls| && CloseCall(s.channel) !in t.calls[|s.calls|..]
  }

  /** The proxy is destroyed while the remote scope is disconnected, or the remote scope disconnects, or
      an uncancelled open reply arrives that failed or brings another channel. */
  predicate GivesUp(s: State, h: Happening) {
    match h
    case DisconnectProxy => !s.proxyConnected
    case NotifyConnected(remoteConnected) => s.proxyConnected && !remoteConnected
    case ChannelReply(token, channel, failed) => token !in s.cancelled && (failed || channel != s.channel)
    case _ => false
  }

  /** In exactly these cases an open channel is given up without a close call. */
  lemma LosesIff(s: State, h: Happening)
    requires Inv(s) && Enabled(s, h) && s.channel != ""
    ensures Loses(s, h) <==> GivesUp(s, h)
  {
    hide Step, CallsCarryChannel, Generations, Issued, SlotsRun, TimedOut;
    StepIsAfter(s, h);
    var t := Step(s, h);
    assert h == DisconnectProxy && s.proxyConnected ==> t.calls[|s.calls|] == CloseCall(s.channel);
    assert h == NotifyConnected(true) && !s.proxyConnected ==> t.calls[|s.calls|] == CloseCall(s.channel);
  }

  // ---- The balance of channels ----

  /** The step opens a channel that is not the present one. */
  predicate Gains(s: State, h: Happening) {
    h.ChannelReply? && h.token !in s.cancelled && !h.failed && h.channel != "" && h.channel != s.channel
  }

  /** The step closes the present channel: the proxy is destroyed while the remote scope is connected, or
      the remote scope connects again. */
  predicate Closes(s: State, h: Happening) {
    && s.channel != ""
    && ((h == DisconnectProxy && s.proxyConnected) || (h == NotifyConnected(true) && !s.proxyConnected))
  }

  function CountCloses(calls: seq<Remote>): nat {
    if calls == [] then 0 else
      CountCloses(calls[..|calls| - 1]) + if calls[|calls| - 1].CloseCall? then 1 else 0
  }

  lemma OneMoreCall(calls: seq<Remote>, r: Remote)
    ensures CountCloses(calls + [r]) == CountCloses(calls) + if r.CloseCall? then 1 else 0
  {
    assert (calls + [r])[..|calls|] == calls;
  }

  lemma {:induction false} SentCloseNothing(calls: seq<Remote>, issued: seq<nat>, channel: string)
    ensures CountCloses(calls + Sent(issued, channel)) == CountCloses(calls)
    decreases |issued|
  {
    if issued == [] {
      assert calls + Sent(issued, channel) == calls;
    } else {
      var earlier, last := issued[..|issued| - 1], issued[|issued| - 1];
      SentCloseNothing(calls, earlier, channel);
      assert calls + Sent(issued, channel) == calls + Sent(earlier, channel) + [RequestCall(last, channel)];
      OneMoreCall(calls + Sent(earlier, channel), RequestCall(last, channel));
    }
  }

  /** The calls that a step adds: the present channel is closed at most once, and no other one ever. */
  predicate AddsCalls(s: State, h: Happening, t: State) {
    && s.calls <= t.calls
    && CountCloses(t.calls) == CountCloses(s.calls) + (if Closes(s, h) then 1 else 0)
    && forall k | |s.calls| <= k < |t.calls| && t.calls[k].CloseCall? :: t.calls[k].channel == s.channel != ""
  }

  lemma Adds(s: State, h: Happening, t: State, added: seq<Remote>)
    requires t.calls == s.calls + added && |added| <= 2
    requires Closes(s, h) <==> |added| > 0 && added[0] == CloseCall(s.channel)
    requires forall k | 0 <= k < |added| && added[k].CloseCall? ::
               k == 0 && added[0] == CloseCall(s.channel) && s.channel != ""
    ensures AddsCalls(s, h, t)
  {
    hide CountCloses, Closes;
    if |added| == 0 {
      assert t.calls == s.calls;
    } else {
      OneMoreCall(s.calls, added[0]);
      if |added| == 1 {
        assert t.calls == s.calls + [added[0]];
      } else {
        OneMoreCall(s.calls + [added[0]], added[1]);
        assert t.calls == s.calls + [added[0]] + [added[1]];
      }
    }
    forall k | |s.calls| <= k < |t.calls| ensures t.calls[k] == added[k - |s.calls|] {
    }
  }

  lemma ReplyAddsCalls(s: State, h: Happening)
    requires Inv(s) && Enabled(s, h) && h.ChannelReply?
    ensures AddsCalls(s, h, Step(s, h))
  {
    hide Step, CountCloses, Issued, SlotsRun, Generations, CallsCarryChannel, IsLive, IsSettled;
    StepIsAfter(s, h);
    SentCloseNothing(s.calls, Issued(s.waiters, s.cancelled, |s.waiters|), h.channel);
  }

  lemma StepAddsCalls(s: State, h: Happening)
    requires Inv(s) && Enabled(s, h)
    ensures AddsCalls(s, h, Step(s, h))
  {
    hide Step, Inv, AddsCalls;
    if h.ChannelReply? {
      ReplyAddsCalls(s, h);
    } else {
      StepCalls(s, h);
      Adds(s, h, Step(s, h), CallsOf(s, h));
    }
  }

  /** A channel that is there before or opened by the step is closed by it, given up, or there after it. */
  lemma StepBalancesChannel(s: State, h: Happening)
    requires Inv(s) && Enabled(s, h)
    ensures (if s.channel != "" then 1 else 0) + (if Gains(s, h) then 1 else 0) ==
            (if Step(s, h).channel != "" then 1 else 0) + (if Closes(s, h) then 1 else 0)
            + (if s.channel != "" && GivesUp(s, h) then 1 else 0)
  {
    hide Step, Issued, SlotsRun, TimedOut, Sent;
    StepIsAfter(s, h);
  }

  /** How many of the first k steps have opened a new channel, and how many have given one up. */
  function Gained(ss: seq<State>, hs: seq<Happening>, k: nat): nat
    requires k <= |hs| < |ss|
  {
    if k == 0 then 0 else Gained(ss, hs, k - 1) + if Gains(ss[k - 1], hs[k - 1]) then 1 else 0
  }

  function Lost(ss: seq<State>, hs: seq<Happening>, k: nat): nat
    requires k <= |hs| < |ss|
  {
    if k == 0 then 0 else
      Lost(ss, hs, k - 1) + if ss[k - 1].channel != "" && GivesUp(ss[k - 1], hs[k - 1]) then 1 else 0
  }

  /** At every point of every run, every channel that was opened has been closed by one call, or has been
      given up without one, or is the present one. */
  lemma {:induction false} ChannelsBalance(ss: seq<State>, hs: seq<Happening>, k: nat)
    requires IsRun(ss, hs) && k <= |hs|
    ensures Gained(ss, hs, k) ==
            CountCloses(ss[k].calls) + Lost(ss, hs, k) + if ss[k].channel != "" then 1 else 0
  {
    hide Step, Enabled, Inv, Gains, Closes, GivesUp, CallsMatch;
    if k == 0 {
      assert START.calls == [] && CountCloses([]) == 0;
    } else {
      ChannelsBalance(ss, hs, k - 1);
      RunKeepsInv(ss, hs, k - 1);
      StepAddsCalls(ss[k - 1], hs[k - 1]);
      StepBalancesChannel(ss[k - 1], hs[k - 1]);
    }
  }

  /** A close call is only ever made for the channel that is present when it is made. */
  lemma OnlyPresentIsClosed(ss: seq<State>, hs: seq<Happening>, k: nat, c: nat)
    requires IsRun(ss, hs) && k < |hs| && |ss[k].calls| <= c < |ss[k + 1].calls| && ss[k + 1].calls[c].CloseCall?
    ensures ss[k + 1].calls[c] == CloseCall(ss[k].channel) && ss[k].channel != "" && Closes(ss[k], hs[k])
  {
    hide Step, Enabled, Inv;
    RunKeepsInv(ss, hs, k);
    StepAddsCalls(ss[k], hs[k]);
    NoCloseIsCounted(ss[k].calls, ss[k + 1].calls, c);
  }

  /** A prefix with one close call less does not count as many. */
  lemma {:induction false} NoCloseIsCounted(before: seq<Remote>, after: seq<Remote>, c: nat)
    requires before <= after && |before| <= c < |after| && after[c].CloseCall?
    ensures CountCloses(after) > CountCloses(before)
    decreases |after|
  {
    var earlier := after[..|after| - 1];
    if c < |earlier| {
      NoCloseIsCounted(before, earlier, c);
    } else {
      ClosesGrow(before, earlier);
    }
  }

  lemma {:induction false} ClosesGrow(before: seq<Remote>, after: seq<Remote>)
    requires before <= after
    ensures CountCloses(before) <= CountCloses(after)
    decreases |after|
  {
    if |before| < |after| {
      ClosesGrow(before, after[..|after| - 1]);
    } else {
      assert before == after;
    }
  }

  /** The open requests that are outstanding after a step. */
  lemma StepOpens(s: State, h: Happening)
    requires Enabled(s, h)
    ensures Step(s, h).opens ==
              match h
              case ProxyReply(token, created, remoteConnected) =>
                if token !in s.cancelled && created && remoteConnected && s.channel == ""
                then s.opens + multiset{Own(s.generation)} else s.opens
              case NotifyConnected(remoteConnected) =>
                if remoteConnected && !s.proxyConnected then s.opens + multiset{Own(s.generation)} else s.opens
              case ChannelReply(token, _, _) => s.opens - multiset{token}
              case _ => s.opens
  {
    hide Step;
    StepIsAfter(s, h);
  }

  /** Two open requests of the present generation are outstanding exactly when the remote scope connects
      again before the first has been answered. */
  lemma SecondOpenIff(s: State, h: Happening)
    requires Inv(s) && Enabled(s, h) && s.opens[Own(s.generation)] <= 1
    ensures Step(s, h).opens[Own(Step(s, h).generation)] > 1 <==>
              h == NotifyConnected(true) && !s.proxyConnected && s.opens[Own(s.generation)] == 1
  {
    hide Step, CallsCarryChannel, IsLive, IsSettled;
    StepOpens(s, h);
    StepCancels(s, h);
    if h == DisconnectProxy {
      assert Own(s.generation + 1) !in s.opens;
    }
    if h.ProxyReply? && h.token !in s.cancelled {
      UncancelledIsPresent(s, h.token);
    }
  }

  lemma OpensWithoutRequests(s: State, token: Token, channel: string)
    requires s.waiters == [] && token in s.opens && token !in s.cancelled && channel != ""
    ensures Step(s, ChannelReply(token, channel, false)) ==
            s.(opens := s.opens - multiset{token}, channel := channel, connected := true)
  {
  }

  lemma RunGrows(ss: seq<State>, hs: seq<Happening>, h: Happening)
    requires IsRun(ss, hs) && Enabled(ss[|hs|], h)
    ensures IsRun(ss + [Step(ss[|hs|], h)], hs + [h])
  {
    hide Step, Enabled;
    var ss', hs' := ss + [Step(ss[|hs|], h)], hs + [h];
    forall i | 0 <= i < |hs'| ensures Enabled(ss'[i], hs'[i]) && ss'[i + 1] == Step(ss'[i], hs'[i]) {
      assert i < |hs| ==> ss'[i] == ss[i] && ss'[i + 1] == ss[i + 1] && hs'[i] == hs[i];
    }
  }

  /** Two open requests outstanding, the remote scope having gone and come back after the first. */
  const REOPENED :=
    State(true, true, true, false, "", 0, {}, multiset{}, multiset{Own(0), Own(0)}, [], [CreateCall, OpenCall, OpenCall])

  lemma ReopenedIsReached() returns (ss: seq<State>)
    ensures IsRun(ss, [ConnectProxy, ProxyReply(Own(0), true, true), NotifyConnected(false), NotifyConnected(true)])
    ensures ss[4] == REOPENED
  {
    hide OnChannelOpened, OnRequest, OnTimer, Destroy, Issued, SlotsRun, Sent;
    var s1 := Create(START);
    var s2 := Step(s1, ProxyReply(Own(0), true, true));
    var s3 := OnConnectedChanged(s2, false);
    HandlerIsIdempotent(s2, false);
    HandlerIsIdempotent(s3, true);
    ss := [START, s1, s2, s3, OnConnectedChanged(s3, true)];
  }

  /** The remote scope goes and comes back while the channel is being opened: two open requests are
      outstanding, and the second reply replaces the channel of the first, which is never closed. */
  lemma ReplacedChannelIsLost()
    ensures var t := Own(0);
            var hs := [ConnectProxy, ProxyReply(t, true, true), NotifyConnected(false), NotifyConnected(true),
                       ChannelReply(t, "c", false), ChannelReply(t, "d", false)];
            exists ss: seq<State> ::
              && IsRun(ss, hs) && ss[4].opens[t] == 2 && ss[5].channel == "c"
              && Loses(ss[5], hs[5]) && ss[6].channel == "d" && CloseCall("c") !in ss[6].calls
  {
    var t := Own(0);
    var start := [ConnectProxy, ProxyReply(t, true, true), NotifyConnected(false), NotifyConnected(true)];
    var first, second := ChannelReply(t, "c", false), ChannelReply(t, "d", false);
    var ss := ReopenedIsReached();
    OpensWithoutRequests(ss[4], t, "c");
    var s5 := Step(ss[4], first);
    OpensWithoutRequests(s5, t, "d");
    var s6 := Step(s5, second);
    assert Loses(s5, second);
    hide Step, Enabled, IsRun, Loses;
    RunGrows(ss, start, first);
    RunGrows(ss + [s5], start + [first], second);
    assert start + [first] + [second] == [ConnectProxy, ProxyReply(t, true, true), NotifyConnected(false),
                                          NotifyConnected(true), first, second];
    assert (ss + [s5] + [s6])[5] == s5;
  }
}
