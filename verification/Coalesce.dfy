/**
 * coalescedOperatorTransition: one Patch and one poll of LLMActiveModel shared by every concurrent
 * request for the same model.
 *
 * Callers are interleaved threads.  A step is one critical section under switchMu or one statement
 * outside it; `Close` is the close of the wait record's channel, and a select with several ready
 * cases may take any of them.
 */
module Coalesce {
  import opened Prelude

  datatype Error = Cancelled(caller: nat) | TransitionFailed(reason: string)

  /** What a call returned: no error, or an error. */
  type Outcome = Option<Error>

  /** A switchWait: whether its channel is closed, how often it was closed, and the error it carries. */
  datatype Wait = Wait(model: string, leader: nat, closes: nat, err: Option<Outcome>)

  datatype PC =
    | Start                       // before the first critical section
    | Follow(wait: nat)           // blocked on the leader's channel or the caller's context
    | Request(wait: nat)          // leader: about to patch the desired model
    | Await(wait: nat)            // leader: polling the operator
    | Count(wait: nat)            // leader: about to record the outcome in the counters
    | Withdraw(wait: nat)         // leader: about to delete its entry
    | SetError(wait: nat)         // leader: about to store the error
    | Close(wait: nat)            // leader: about to close the channel
    | Return(wait: nat)           // leader: about to return
    | Returned(result: Outcome)

  datatype Thread = Thread(model: string, pc: PC, patches: nat, outcome: Outcome, counted: bool)

  datatype State = State(threads: seq<Thread>, waiters: map<string, nat>, waits: seq<Wait>, switchesTotal: nat)

  datatype Action =
    | Call(model: string)                 // a request arrives
    | Enter(t: nat)                       // the first critical section
    | Woken(t: nat)                       // follower: the channel is closed
    | GiveUp(t: nat)                      // the caller's own context is done
    | Patch(t: nat, result: Outcome)      // leader: requestOperatorTransition
    | Poll(t: nat, result: Outcome)       // leader: waitForOperatorTransition
    | Advance(t: nat)                     // leader: the next bookkeeping statement
    | Finish(t: nat)                      // leader: return the shared result

  function Move(s: State, t: nat, pc: PC): State
    requires t < |s.threads|
  {
    s.(threads := s.threads[t := s.threads[t].(pc := pc)])
  }

  /** A caller finds a wait record to follow or installs its own and leads. */
  function StepEnter(s: State, t: nat): State
    requires t < |s.threads|
  {
    var m := s.threads[t].model;
    if m in s.waiters then Move(s, t, Follow(s.waiters[m]))
    else
      var id := |s.waits|;
      Move(s, t, Request(id)).(waits := s.waits + [Wait(m, t, 0, None)], waiters := s.waiters[m := id])
  }

  function StepAdvance(s: State, t: nat): State
    requires t < |s.threads|
  {
    var th := s.threads[t];
    match th.pc
    case Count(w) =>
      if th.outcome.None? then
        s.(threads := s.threads[t := th.(pc := Withdraw(w), counted := true)], switchesTotal := s.switchesTotal + 1)
      else Move(s, t, Withdraw(w))
    case Withdraw(w) => Move(s, t, SetError(w)).(waiters := s.waiters - {th.model})
    case SetError(w) =>
      if w < |s.waits| then Move(s, t, Close(w)).(waits := s.waits[w := s.waits[w].(err := Some(th.outcome))]) else s
    case Close(w) =>
      if w < |s.waits| then
        Move(s, t, Return(w)).(waits := s.waits[w := s.waits[w].(closes := s.waits[w].closes + 1)])
      else s
    case _ => s
  }

  function Apply(s: State, action: Action): State {
    match action
    case Call(m) => s.(threads := s.threads + [Thread(m, Start, 0, None, false)])
    case Enter(t) => if t < |s.threads| && s.threads[t].pc.Start? then StepEnter(s, t) else s
    case Woken(t) =>
      if t < |s.threads| && s.threads[t].pc.Follow? && s.threads[t].pc.wait < |s.waits| then
        var w := s.waits[s.threads[t].pc.wait];
        // Receiving needs a closed channel; the error field is then read as it stands, nil if never set.
        if w.closes > 0 then Move(s, t, Returned(if w.err.Some? then w.err.value else None)) else s
      else s
    case GiveUp(t) =>
      if t < |s.threads| && (s.threads[t].pc.Follow? || s.threads[t].pc.Return?)
      then Move(s, t, Returned(Some(Cancelled(t)))) else s
    case Patch(t, result) =>
      if t < |s.threads| && s.threads[t].pc.Request? then
        var th := s.threads[t];
        var next := if result.None? then Await(th.pc.wait) else Count(th.pc.wait);
        s.(threads := s.threads[t := th.(pc := next, patches := th.patches + 1, outcome := result)])
      else s
    case Poll(t, result) =>
      if t < |s.threads| && s.threads[t].pc.Await? then
        s.(threads := s.threads[t := s.threads[t].(pc := Count(s.threads[t].pc.wait), outcome := result)])
      else s
    case Advance(t) => if t < |s.threads| then StepAdvance(s, t) else s
    case Finish(t) =>
      if t < |s.threads| && s.threads[t].pc.Return? then Move(s, t, Returned(s.threads[t].outcome)) else s
  }

  function Run(s: State, actions: seq<Action>): State
    decreases |actions|
  {
    if actions == [] then s else Run(Apply(s, actions[0]), actions[1..])
  }

  const INITIAL := State([], map[], [], 0)

  /** anySwitchInFlight. */
  predicate AnySwitchInFlight(s: State) { s.waiters != map[] }

  // ------------------------------------------------------------------ the invariant

  /** A leader whose entry is in switchWaiters. */
  predicate Registered(pc: PC) { pc.Request? || pc.Await? || pc.Count? || pc.Withdraw? }

  /** A leader that has not closed its channel yet. */
  predicate Live(pc: PC) { Registered(pc) || pc.SetError? || pc.Close? }

  predicate Leads(pc: PC) { Live(pc) || pc.Return? }

  /** Where a wait record stands, told from its leader's program counter. */
  predicate WaitFits(w: Wait, id: nat, th: Thread) {
    && th.model == w.model
    && (Live(th.pc) ==> th.pc.wait == id && w.closes == 0)
    && (Live(th.pc) && !th.pc.Close? ==> w.err.None?)
    && (th.pc.Close? ==> w.err == Some(th.outcome))
    && (!Live(th.pc) ==> w.closes == 1 && w.err == Some(th.outcome) && (th.pc.Return? || th.pc.Returned?))
    && (th.pc.Return? ==> th.pc.wait == id)
  }

  predicate ThreadFits(s: State, t: nat)
    requires t < |s.threads|
  {
    var th := s.threads[t];
    && (Leads(th.pc) ==> th.pc.wait < |s.waits| && s.waits[th.pc.wait].leader == t)
    && (Registered(th.pc) ==> th.model in s.waiters && s.waiters[th.model] == th.pc.wait)
    && (th.pc.Follow? ==>
          th.pc.wait < |s.waits| && s.waits[th.pc.wait].model == th.model && s.waits[th.pc.wait].leader != t)
    && (th.pc.Start? || th.pc.Follow? || th.pc.Request? ==> th.patches == 0)
    && (Leads(th.pc) && !th.pc.Request? ==> th.patches == 1)
    && (th.counted <==> CountsAsSwitch(s, t))
    && th.patches <= 1
  }

  /** A leader past its bookkeeping whose transition succeeded. */
  predicate CountsAsSwitch(s: State, t: nat)
    requires t < |s.threads|
  {
    var th := s.threads[t];
    && th.outcome.None? && th.patches == 1
    && (th.pc.Withdraw? || th.pc.SetError? || th.pc.Close? || th.pc.Return? || th.pc.Returned?)
  }

  /** An entry of switchWaiters names an open wait record of its model, led by a registered thread. */
  ghost predicate EntriesFit(s: State) {
    forall m :: m in s.waiters ==> EntryFits(s, m, s.waiters[m])
  }

  predicate EntryFits(s: State, m: string, id: nat) {
    && id < |s.waits| && s.waits[id].model == m
    && s.waits[id].leader < |s.threads| && Registered(s.threads[s.waits[id].leader].pc)
  }

  predicate WaitFitsIn(s: State, id: nat)
    requires id < |s.waits|
  {
    s.waits[id].leader < |s.threads| && WaitFits(s.waits[id], id, s.threads[s.waits[id].leader])
  }

  ghost predicate WaitsFit(s: State) {
    forall id :: 0 <= id < |s.waits| ==> WaitFitsIn(s, id)
  }

  ghost predicate ThreadsFit(s: State) {
    forall t :: 0 <= t < |s.threads| ==> ThreadFits(s, t)
  }

  ghost predicate Inv(s: State) {
    EntriesFit(s) && WaitsFit(s) && ThreadsFit(s) && s.switchesTotal == CountedIn(s.threads)
  }

  /** Number of threads whose success has been added to switchesTotal. */
  function CountedIn(threads: seq<Thread>): nat {
    if threads == [] then 0
    else (if threads[|threads| - 1].counted then 1 else 0) + CountedIn(threads[..|threads| - 1])
  }

  lemma {:induction false} CountedUpdate(threads: seq<Thread>, t: nat, th: Thread)
    requires t < |threads|
    ensures CountedIn(threads[t := th]) ==
            CountedIn(threads) - (if threads[t].counted then 1 else 0) + (if th.counted then 1 else 0)
  {
    var n := |threads| - 1;
    if t == n {
      assert threads[t := th][..n] == threads[..n];
    } else {
      assert threads[t := th][..n] == threads[..n][t := th];
      CountedUpdate(threads[..n], t, th);
    }
  }

  lemma CountedAppend(threads: seq<Thread>, th: Thread)
    ensures CountedIn(threads + [th]) == CountedIn(threads) + (if th.counted then 1 else 0)
  {
    assert (threads + [th])[..|threads|] == threads;
  }

  lemma CallKeepsInv(s: State, m: string)
    requires Inv(s)
    ensures Inv(Apply(s, Call(m)))
  {
    var s' := Apply(s, Call(m));
    CallFits(s, s', m);
    CountedAppend(s.threads, Thread(m, Start, 0, None, false));
  }

  lemma CallFits(s: State, s': State, m: string)
    requires EntriesFit(s) && WaitsFit(s) && ThreadsFit(s) && s' == Apply(s, Call(m))
    ensures EntriesFit(s') && WaitsFit(s') && ThreadsFit(s')
  {
    forall t | 0 <= t < |s'.threads| ensures ThreadFits(s', t) {
      if t < |s.threads| { assert ThreadFits(s, t); }
    }
    forall id | 0 <= id < |s'.waits| ensures WaitFitsIn(s', id) { assert WaitFitsIn(s, id); }
    forall k | k in s'.waiters ensures EntryFits(s', k, s'.waiters[k]) { assert EntryFits(s, k, s.waiters[k]); }
  }

  /** How thread `t` may change while its wait record stays as it is. */
  predicate SameStanding(old': Thread, new': Thread) {
    && new'.model == old'.model
    && (Registered(old'.pc) ==> Registered(new'.pc))
    && (Live(old'.pc) <==> Live(new'.pc))
    && (Live(old'.pc) ==> new'.pc.wait == old'.pc.wait && (new'.pc.Close? <==> old'.pc.Close?))
    && (old'.pc.Close? || !Live(old'.pc) ==> new'.outcome == old'.outcome)
    && (new'.pc.Return? ==> new'.pc == old'.pc)
    && (old'.pc.Return? || old'.pc.Returned? ==> new'.pc.Return? || new'.pc.Returned?)
  }

  lemma MoveKeepsInv(s: State, t: nat, th: Thread, total: nat)
    requires Inv(s) && t < |s.threads| && SameStanding(s.threads[t], th)
    requires ThreadFits(s.(threads := s.threads[t := th]), t)
    requires total == s.switchesTotal + (if th.counted then 1 else 0) - (if s.threads[t].counted then 1 else 0)
    ensures Inv(s.(threads := s.threads[t := th], switchesTotal := total))
  {
    var s' := s.(threads := s.threads[t := th], switchesTotal := total);
    CountedUpdate(s.threads, t, th);
    forall u | 0 <= u < |s'.threads| ensures ThreadFits(s', u) {
      assert ThreadFits(s, u);
      if u == t { assert ThreadFits(s.(threads := s.threads[t := th]), t); }
    }
    forall id | 0 <= id < |s'.waits| ensures WaitFitsIn(s', id) { assert WaitFitsIn(s, id); }
    forall m | m in s'.waiters ensures EntryFits(s', m, s'.waiters[m]) {
      assert EntryFits(s, m, s.waiters[m]);
    }
  }

  /** A caller that finds an entry follows its leader. */
  lemma EnterFollows(s: State, t: nat)
    requires Inv(s) && t < |s.threads| && s.threads[t].pc.Start? && s.threads[t].model in s.waiters
    ensures Inv(StepEnter(s, t))
  {
    var m := s.threads[t].model;
    assert ThreadFits(s, t) && EntryFits(s, m, s.waiters[m]);
    MoveKeepsInv(s, t, s.threads[t].(pc := Follow(s.waiters[m])), s.switchesTotal);
  }

  /** A caller that finds none installs its own and leads. */
  lemma EnterLeads(s: State, t: nat)
    requires Inv(s) && t < |s.threads| && s.threads[t].pc.Start? && s.threads[t].model !in s.waiters
    ensures Inv(StepEnter(s, t))
  {
    var s' := StepEnter(s, t);
    CountedUpdate(s.threads, t, s'.threads[t]);
    assert ThreadFits(s, t);
    forall u | 0 <= u < |s'.threads| ensures ThreadFits(s', u) { assert ThreadFits(s, u); }
    forall id | 0 <= id < |s'.waits| ensures WaitFitsIn(s', id) {
      if id < |s.waits| { assert WaitFitsIn(s, id); }
    }
    forall k | k in s'.waiters ensures EntryFits(s', k, s'.waiters[k]) {
      if k != s.threads[t].model { assert EntryFits(s, k, s.waiters[k]); }
    }
  }

  lemma FollowerKeepsInv(s: State, t: nat, result: Outcome)
    requires Inv(s) && t < |s.threads| && s.threads[t].pc.Follow?
    ensures Inv(Move(s, t, Returned(result)))
  {
    assert ThreadFits(s, t);
    MoveKeepsInv(s, t, s.threads[t].(pc := Returned(result)), s.switchesTotal);
  }

  lemma ReturnKeepsInv(s: State, t: nat, result: Outcome)
    requires Inv(s) && t < |s.threads| && s.threads[t].pc.Return?
    ensures Inv(Move(s, t, Returned(result)))
  {
    assert ThreadFits(s, t);
    MoveKeepsInv(s, t, s.threads[t].(pc := Returned(result)), s.switchesTotal);
  }

  lemma PatchKeepsInv(s: State, t: nat, result: Outcome)
    requires Inv(s) && t < |s.threads|
    ensures Inv(Apply(s, Patch(t, result)))
  {
    assert ThreadFits(s, t);
    var th := s.threads[t];
    if th.pc.Request? {
      var next := if result.None? then Await(th.pc.wait) else Count(th.pc.wait);
      MoveKeepsInv(s, t, th.(pc := next, patches := th.patches + 1, outcome := result), s.switchesTotal);
    }
  }

  lemma PollKeepsInv(s: State, t: nat, result: Outcome)
    requires Inv(s) && t < |s.threads|
    ensures Inv(Apply(s, Poll(t, result)))
  {
    assert ThreadFits(s, t);
    var th := s.threads[t];
    if th.pc.Await? {
      MoveKeepsInv(s, t, th.(pc := Count(th.pc.wait), outcome := result), s.switchesTotal);
    }
  }

  lemma CountKeepsInv(s: State, t: nat)
    requires Inv(s) && t < |s.threads| && s.threads[t].pc.Count?
    ensures Inv(StepAdvance(s, t))
  {
    assert ThreadFits(s, t);
    var th := s.threads[t];
    var counted := th.outcome.None?;
    MoveKeepsInv(s, t, th.(pc := Withdraw(th.pc.wait), counted := counted), s.switchesTotal + if counted then 1 else 0);
  }

  lemma WithdrawKeepsInv(s: State, t: nat)
    requires Inv(s) && t < |s.threads| && s.threads[t].pc.Withdraw?
    ensures Inv(StepAdvance(s, t))
  {
    var s' := StepAdvance(s, t);
    assert ThreadFits(s, t);
    CountedUpdate(s.threads, t, s'.threads[t]);
    forall u | 0 <= u < |s'.threads| ensures ThreadFits(s', u) {
      assert ThreadFits(s, u);
    }
    forall id | 0 <= id < |s'.waits| ensures WaitFitsIn(s', id) { assert WaitFitsIn(s, id); }
    forall m | m in s'.waiters ensures EntryFits(s', m, s'.waiters[m]) {
      assert EntryFits(s, m, s.waiters[m]);
      var id := s.waiters[m];
      assert WaitFitsIn(s, id);
    }
  }

  lemma SetErrorKeepsInv(s: State, t: nat)
    requires Inv(s) && t < |s.threads| && s.threads[t].pc.SetError?
    ensures Inv(StepAdvance(s, t))
  {
    var s' := StepAdvance(s, t);
    assert ThreadFits(s, t);
    CountedUpdate(s.threads, t, s'.threads[t]);
    forall u | 0 <= u < |s'.threads| ensures ThreadFits(s', u) { assert ThreadFits(s, u); }
    forall id | 0 <= id < |s'.waits| ensures WaitFitsIn(s', id) { assert WaitFitsIn(s, id); }
    forall m | m in s'.waiters ensures EntryFits(s', m, s'.waiters[m]) { assert EntryFits(s, m, s.waiters[m]); }
  }

  lemma CloseKeepsInv(s: State, t: nat)
    requires Inv(s) && t < |s.threads| && s.threads[t].pc.Close?
    ensures Inv(StepAdvance(s, t))
  {
    var s' := StepAdvance(s, t);
    assert ThreadFits(s, t);
    CountedUpdate(s.threads, t, s'.threads[t]);
    forall u | 0 <= u < |s'.threads| ensures ThreadFits(s', u) { assert ThreadFits(s, u); }
    forall id | 0 <= id < |s'.waits| ensures WaitFitsIn(s', id) { assert WaitFitsIn(s, id); }
    forall m | m in s'.waiters ensures EntryFits(s', m, s'.waiters[m]) { assert EntryFits(s, m, s.waiters[m]); }
  }

  lemma ApplyKeepsInv(s: State, action: Action)
    requires Inv(s)
    ensures Inv(Apply(s, action))
  {
    match action
    case Call(m) => CallKeepsInv(s, m);
    case Enter(t) =>
      if t < |s.threads| && s.threads[t].pc.Start? {
        if s.threads[t].model in s.waiters { EnterFollows(s, t); } else { EnterLeads(s, t); }
      }
    case Woken(t) =>
      if t < |s.threads| && s.threads[t].pc.Follow? && s.threads[t].pc.wait < |s.waits| {
        var w := s.waits[s.threads[t].pc.wait];
        FollowerKeepsInv(s, t, if w.err.Some? then w.err.value else None);
      }
    case GiveUp(t) =>
      if t < |s.threads| && s.threads[t].pc.Follow? { FollowerKeepsInv(s, t, Some(Cancelled(t))); }
      if t < |s.threads| && s.threads[t].pc.Return? { ReturnKeepsInv(s, t, Some(Cancelled(t))); }
    case Patch(t, result) => if t < |s.threads| { PatchKeepsInv(s, t, result); }
    case Poll(t, result) => if t < |s.threads| { PollKeepsInv(s, t, result); }
    case Advance(t) =>
      if t < |s.threads| {
        match s.threads[t].pc
        case Count(w) => CountKeepsInv(s, t);
        case Withdraw(w) => WithdrawKeepsInv(s, t);
        case SetError(w) => SetErrorKeepsInv(s, t);
        case Close(w) => CloseKeepsInv(s, t);
        case _ =>
      }
    case Finish(t) => if t < |s.threads| && s.threads[t].pc.Return? { ReturnKeepsInv(s, t, s.threads[t].outcome); }
  }

  lemma {:induction false} RunKeepsInv(s: State, actions: seq<Action>)
    requires Inv(s)
    ensures Inv(Run(s, actions))
    decreases |actions|
  {
    if actions != [] {
      ApplyKeepsInv(s, actions[0]);
      RunKeepsInv(Apply(s, actions[0]), actions[1..]);
    }
  }

  // ------------------------------------------------------------------ what every interleaving guarantees

  /** At most one registered leader per model, and no leader patches twice. */
  lemma OneLeaderPerModel(actions: seq<Action>, t: nat, u: nat)
    ensures var s := Run(INITIAL, actions);
            && (t < |s.threads| ==> s.threads[t].patches <= 1)
            && (t < |s.threads| && u < |s.threads| && s.threads[t].model == s.threads[u].model ==>
                  Registered(s.threads[t].pc) && Registered(s.threads[u].pc) ==> t == u)
  {
    RunKeepsInv(INITIAL, actions);
    var s := Run(INITIAL, actions);
    if t < |s.threads| && u < |s.threads| { assert ThreadFits(s, t) && ThreadFits(s, u); }
    if t < |s.threads| { assert ThreadFits(s, t); }
  }

  /** An entry in switchWaiters is never already done, and it always has a registered leader. */
  lemma EntriesAreOpen(actions: seq<Action>, m: string)
    ensures var s := Run(INITIAL, actions);
            m in s.waiters ==>
              && s.waiters[m] < |s.waits|
              && s.waits[s.waiters[m]].closes == 0 && s.waits[s.waiters[m]].err.None?
              && s.waits[s.waiters[m]].leader < |s.threads|
              && Registered(s.threads[s.waits[s.waiters[m]].leader].pc)
              && s.threads[s.waits[s.waiters[m]].leader].model == m
  {
    RunKeepsInv(INITIAL, actions);
    var s := Run(INITIAL, actions);
    if m in s.waiters {
      var id := s.waiters[m];
      assert EntryFits(s, m, id);
      assert WaitFitsIn(s, id);
    }
  }

  /** Switches are reported in flight exactly while some leader is registered. */
  lemma InFlightIffLeader(actions: seq<Action>)
    ensures var s := Run(INITIAL, actions);
            AnySwitchInFlight(s) <==> exists t :: 0 <= t < |s.threads| && Registered(s.threads[t].pc)
  {
    RunKeepsInv(INITIAL, actions);
    var s := Run(INITIAL, actions);
    if AnySwitchInFlight(s) {
      assert s.waiters.Keys != {};
      var m :| m in s.waiters;
      assert EntryFits(s, m, s.waiters[m]);
    }
    if t :| 0 <= t < |s.threads| && Registered(s.threads[t].pc) {
      assert ThreadFits(s, t);
    }
  }

  /** A blocked follower is either about to be woken or has a leader that still has to close the channel. */
  lemma FollowersAreNotStranded(actions: seq<Action>, t: nat)
    ensures var s := Run(INITIAL, actions);
            t < |s.threads| && s.threads[t].pc.Follow? ==>
              && s.threads[t].pc.wait < |s.waits|
              && var w := s.waits[s.threads[t].pc.wait];
                 && w.leader < |s.threads| && w.leader != t && s.threads[w.leader].model == s.threads[t].model
                 && (w.closes == 0 ==>
                       Live(s.threads[w.leader].pc) && s.threads[w.leader].pc.wait == s.threads[t].pc.wait)
                 && (w.closes > 0 ==> w.err == Some(s.threads[w.leader].outcome))
  {
    RunKeepsInv(INITIAL, actions);
    var s := Run(INITIAL, actions);
    if t < |s.threads| && s.threads[t].pc.Follow? {
      assert ThreadFits(s, t);
      var id := s.threads[t].pc.wait;
      assert WaitFitsIn(s, id);
    }
  }

  /** Every channel is closed at most once, and only after its error was set; it is closed once its leader is done. */
  lemma ClosedOnceAfterError(actions: seq<Action>, id: nat)
    ensures var s := Run(INITIAL, actions);
            id < |s.waits| ==>
              && s.waits[id].closes <= 1
              && (s.waits[id].closes == 1 ==> s.waits[id].err.Some?)
              && s.waits[id].leader < |s.threads|
              && (s.waits[id].closes == 1 <==>
                    s.threads[s.waits[id].leader].pc.Return? || s.threads[s.waits[id].leader].pc.Returned?)
  {
    RunKeepsInv(INITIAL, actions);
    var s := Run(INITIAL, actions);
    if id < |s.waits| {
      assert WaitFitsIn(s, id);
    }
  }

  /** What a step returns from a call, in a state that satisfies the invariant. */
  lemma StepReturns(s: State, action: Action, t: nat)
    requires Inv(s)
    ensures var s' := Apply(s, action);
            t < |s.threads| && !s.threads[t].pc.Returned? && t < |s'.threads| && s'.threads[t].pc.Returned? ==>
              var result := s'.threads[t].pc.result;
              || (result == Some(Cancelled(t)) && action == GiveUp(t))
              || (s.threads[t].pc.Return? && result == s.threads[t].outcome)
              || (s.threads[t].pc.Follow? && s.threads[t].pc.wait < |s.waits|
                  && s.waits[s.threads[t].pc.wait].leader < |s.threads|
                  && result == s.threads[s.waits[s.threads[t].pc.wait].leader].outcome)
  {
    if t < |s.threads| {
      assert ThreadFits(s, t);
      if s.threads[t].pc.Follow? {
        var id := s.threads[t].pc.wait;
        assert WaitFitsIn(s, id);
      }
    }
  }

  /** A call returns its own context error or the outcome of the one leader it shared. */
  lemma EveryCallReturnsTheSharedResult(actions: seq<Action>, action: Action, t: nat)
    ensures var s, s' := Run(INITIAL, actions), Apply(Run(INITIAL, actions), action);
            t < |s.threads| && !s.threads[t].pc.Returned? && t < |s'.threads| && s'.threads[t].pc.Returned? ==>
              var result := s'.threads[t].pc.result;
              || (result == Some(Cancelled(t)) && action == GiveUp(t))
              || (s.threads[t].pc.Return? && result == s.threads[t].outcome)
              || (s.threads[t].pc.Follow? && s.threads[t].pc.wait < |s.waits|
                  && s.waits[s.threads[t].pc.wait].leader < |s.threads|
                  && result == s.threads[s.waits[s.threads[t].pc.wait].leader].outcome)
  {
    RunKeepsInv(INITIAL, actions);
    StepReturns(Run(INITIAL, actions), action, t);
  }

  /** The threads that led a successful transition and have recorded it. */
  ghost function SuccessfulLeaders(s: State): set<nat> {
    set t | 0 <= t < |s.threads| && CountsAsSwitch(s, t)
  }

  lemma {:induction false} CountedIsCardinality(threads: seq<Thread>)
    ensures CountedIn(threads) == |set t: nat | 0 <= t < |threads| && threads[t].counted|
  {
    var all := set t: nat | 0 <= t < |threads| && threads[t].counted;
    if threads != [] {
      var n := |threads| - 1;
      var init := threads[..n];
      CountedIsCardinality(init);
      var rest := set t: nat | 0 <= t < |init| && init[t].counted;
      if threads[n].counted {
        assert all == rest + {n};
      } else {
        assert all == rest;
      }
    }
  }

  /** switchesTotal is the number of leaders whose transition succeeded. */
  lemma SwitchesTotalCountsSuccesses(actions: seq<Action>)
    ensures var s := Run(INITIAL, actions); s.switchesTotal == |SuccessfulLeaders(s)|
  {
    RunKeepsInv(INITIAL, actions);
    var s := Run(INITIAL, actions);
    CountedIsCardinality(s.threads);
    forall t | 0 <= t < |s.threads| ensures s.threads[t].counted <==> CountsAsSwitch(s, t) { assert ThreadFits(s, t); }
    assert SuccessfulLeaders(s) == set t: nat | 0 <= t < |s.threads| && s.threads[t].counted;
  }

  /**
   * A leader that has withdrawn its entry but not yet closed its channel does not keep a later caller
   * from leading: two calls for one model can both be live, so only registered leaders are unique.
   */
  lemma WithdrawnLeaderMayOverlap(m: string)
    ensures var run := [Call(m), Enter(0), Patch(0, None), Poll(0, None), Advance(0), Advance(0), Call(m), Enter(1)];
            var s := Run(INITIAL, run);
            && |s.threads| == 2 && Live(s.threads[0].pc) && Live(s.threads[1].pc)
            && s.threads[0].model == s.threads[1].model
  {
    var s1 := Apply(INITIAL, Call(m));
    var s2 := Apply(s1, Enter(0));
    var s3 := Apply(s2, Patch(0, None));
    var s4 := Apply(s3, Poll(0, None));
    var s5 := Apply(s4, Advance(0));
    var s6 := Apply(s5, Advance(0));
    var s7 := Apply(s6, Call(m));
    var s8 := Apply(s7, Enter(1));
    assert s6.waiters == map[];
    RunUnrolled(m, s1, s2, s3, s4, s5, s6, s7, s8);
  }

  lemma RunUnrolled(m: string, s1: State, s2: State, s3: State, s4: State, s5: State, s6: State, s7: State, s8: State)
    requires s1 == Apply(INITIAL, Call(m)) && s2 == Apply(s1, Enter(0)) && s3 == Apply(s2, Patch(0, None))
    requires s4 == Apply(s3, Poll(0, None)) && s5 == Apply(s4, Advance(0)) && s6 == Apply(s5, Advance(0))
    requires s7 == Apply(s6, Call(m)) && s8 == Apply(s7, Enter(1))
    ensures var run := [Call(m), Enter(0), Patch(0, None), Poll(0, None), Advance(0), Advance(0), Call(m), Enter(1)];
            Run(INITIAL, run) == s8
  {
    assert Run(s7, [Enter(1)]) == s8;
    assert Run(s6, [Call(m), Enter(1)]) == s8;
    assert Run(s5, [Advance(0), Call(m), Enter(1)]) == s8;
    assert Run(s4, [Advance(0), Advance(0), Call(m), Enter(1)]) == s8;
    assert Run(s3, [Poll(0, None), Advance(0), Advance(0), Call(m), Enter(1)]) == s8;
    assert Run(s2, [Patch(0, None), Poll(0, None), Advance(0), Advance(0), Call(m), Enter(1)]) == s8;
    assert Run(s1, [Enter(0), Patch(0, None), Poll(0, None), Advance(0), Advance(0), Call(m), Enter(1)]) == s8;
  }
}
