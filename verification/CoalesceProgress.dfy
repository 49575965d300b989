/**
 * Progress of coalesced transitions: a leader that has not closed its channel always has a step of its own to
 * take, a bounded number of them closes the channel whatever the other callers do, and then every follower can
 * return.
 */
module CoalesceProgress {
  import opened Prelude
  import opened Coalesce

  /** An upper bound on the steps a leader still takes before its channel is closed. */
  function Left(pc: PC): nat {
    match pc
    case Request(_) => 6
    case Await(_) => 5
    case Count(_) => 4
    case Withdraw(_) => 3
    case SetError(_) => 2
    case Close(_) => 1
    case _ => 0
  }

  /** The action is the next statement of leader `t`, whatever it is answered. */
  predicate Works(s: State, t: nat, action: Action)
    requires t < |s.threads|
  {
    var pc := s.threads[t].pc;
    match action
    case Patch(u, _) => u == t && pc.Request?
    case Poll(u, _) => u == t && pc.Await?
    case Advance(u) => u == t && (pc.Count? || pc.Withdraw? || pc.SetError? || pc.Close?)
    case _ => false
  }

  /** Threads never disappear, and every action but the leader's own leaves a live leader where it is. */
  lemma StepOfLeader(s: State, t: nat, action: Action)
    requires Inv(s) && t < |s.threads| && Live(s.threads[t].pc)
    ensures t < |Apply(s, action).threads|
    ensures var th, th' := s.threads[t], Apply(s, action).threads[t];
            if Works(s, t, action) then Left(th'.pc) < Left(th.pc) && (Live(th'.pc) || th'.pc.Return?) else th' == th
  {
    assert ThreadFits(s, t);
  }

  /** A live leader is never blocked. */
  lemma LeaderIsEnabled(s: State, t: nat)
    requires t < |s.threads| && Live(s.threads[t].pc)
    ensures exists action :: Works(s, t, action)
  {
    match s.threads[t].pc
    case Request(_) => assert Works(s, t, Patch(t, None));
    case Await(_) => assert Works(s, t, Poll(t, None));
    case _ => assert Works(s, t, Advance(t));
  }

  /** How many steps of its own the leader takes in a run. */
  function Taken(s: State, actions: seq<Action>, t: nat): nat
    decreases |actions|
  {
    if actions == [] then 0
    else (if t < |s.threads| && Works(s, t, actions[0]) then 1 else 0) + Taken(Apply(s, actions[0]), actions[1..], t)
  }

  /** A thread that is about to return, or has, stays so and leads no more. */
  lemma DoneStep(s: State, t: nat, action: Action)
    requires Inv(s) && t < |s.threads| && (s.threads[t].pc.Return? || s.threads[t].pc.Returned?)
    ensures !Works(s, t, action) && t < |Apply(s, action).threads|
    ensures Apply(s, action).threads[t].pc.Return? || Apply(s, action).threads[t].pc.Returned?
  {
  }

  lemma {:induction false} DoneStays(s: State, actions: seq<Action>, t: nat)
    requires Inv(s) && t < |s.threads| && (s.threads[t].pc.Return? || s.threads[t].pc.Returned?)
    ensures Taken(s, actions, t) == 0 && t < |Run(s, actions).threads|
    ensures Run(s, actions).threads[t].pc.Return? || Run(s, actions).threads[t].pc.Returned?
    decreases |actions|
  {
    if actions != [] {
      DoneStep(s, t, actions[0]);
      ApplyKeepsInv(s, actions[0]);
      DoneStays(Apply(s, actions[0]), actions[1..], t);
    }
  }

  /** In every interleaving each step of the leader brings it closer to closing its channel. */
  lemma {:induction false} LeaderAdvances(s: State, actions: seq<Action>, t: nat)
    requires Inv(s) && t < |s.threads| && Live(s.threads[t].pc)
    ensures var s' := Run(s, actions);
            && t < |s'.threads| && Taken(s, actions, t) + Left(s'.threads[t].pc) <= Left(s.threads[t].pc)
            && (Live(s'.threads[t].pc) || s'.threads[t].pc.Return? || s'.threads[t].pc.Returned?)
    decreases |actions|
  {
    if actions != [] {
      StepOfLeader(s, t, actions[0]);
      ApplyKeepsInv(s, actions[0]);
      var next := Apply(s, actions[0]);
      if Live(next.threads[t].pc) {
        LeaderAdvances(next, actions[1..], t);
      } else {
        DoneStays(next, actions[1..], t);
      }
    }
  }

  lemma {:induction false} RunConcat(s: State, a: seq<Action>, b: seq<Action>)
    ensures Run(s, a + b) == Run(Run(s, a), b)
    decreases |a|
  {
    if a == [] {
      assert a + b == b;
    } else {
      assert (a + b)[1..] == a[1..] + b;
      RunConcat(Apply(s, a[0]), a[1..], b);
    }
  }

  /** Wait records keep their number and their leader. */
  lemma {:induction false} WaitsStay(s: State, actions: seq<Action>, id: nat)
    requires id < |s.waits|
    ensures id < |Run(s, actions).waits| && Run(s, actions).waits[id].leader == s.waits[id].leader
    decreases |actions|
  {
    if actions != [] {
      WaitsStay(Apply(s, actions[0]), actions[1..], id);
    }
  }

  /**
   * No leader takes more than six steps.  In whatever interleaving, its channel is closed once and carries its
   * outcome, or it has taken fewer steps than it had left and can take another.
   */
  lemma LeaderCloses(actions: seq<Action>, later: seq<Action>, id: nat)
    ensures var s, s' := Run(INITIAL, actions), Run(INITIAL, actions + later);
            id < |s.waits| ==>
              var t := s.waits[id].leader;
              && t < |s.threads| && id < |s'.waits| && t < |s'.threads|
              && Taken(s, later, t) <= Left(s.threads[t].pc) <= 6
              && if Live(s'.threads[t].pc) then
                   && Taken(s, later, t) < Left(s.threads[t].pc)
                   && exists action :: Works(s', t, action)
                 else s'.waits[id].closes == 1 && s'.waits[id].err == Some(s'.threads[t].outcome)
  {
    var s := Run(INITIAL, actions);
    RunConcat(INITIAL, actions, later);
    RunKeepsInv(INITIAL, actions);
    if id < |s.waits| {
      LeaderEnds(s, later, id);
    }
  }

  lemma LeaderEnds(s: State, later: seq<Action>, id: nat)
    requires Inv(s) && id < |s.waits|
    ensures var s', t := Run(s, later), s.waits[id].leader;
            && t < |s.threads| && id < |s'.waits| && t < |s'.threads| && Taken(s, later, t) <= Left(s.threads[t].pc)
            && if Live(s'.threads[t].pc) then
                 && Taken(s, later, t) < Left(s.threads[t].pc)
                 && exists action :: Works(s', t, action)
               else s'.waits[id].closes == 1 && s'.waits[id].err == Some(s'.threads[t].outcome)
  {
    var s', t := Run(s, later), s.waits[id].leader;
    RunKeepsInv(s, later);
    WaitsStay(s, later, id);
    assert WaitFitsIn(s, id);
    if Live(s.threads[t].pc) {
      LeaderAdvances(s, later, t);
    } else {
      DoneStays(s, later, t);
    }
    if Live(s'.threads[t].pc) {
      LeaderIsEnabled(s', t);
    } else {
      assert WaitFitsIn(s', id);
    }
  }

  /** From every state of every interleaving a live leader can close its channel by steps of its own. */
  lemma {:induction false} LeaderCanClose(s: State, t: nat) returns (later: seq<Action>)
    requires Inv(s) && t < |s.threads| && Live(s.threads[t].pc)
    ensures |later| <= Left(s.threads[t].pc) && Taken(s, later, t) == |later|
    ensures t < |Run(s, later).threads| && !Live(Run(s, later).threads[t].pc)
    decreases Left(s.threads[t].pc)
  {
    LeaderIsEnabled(s, t);
    var action :| Works(s, t, action);
    StepOfLeader(s, t, action);
    ApplyKeepsInv(s, action);
    var next := Apply(s, action);
    var rest := [];
    if Live(next.threads[t].pc) {
      rest := LeaderCanClose(next, t);
    } else {
      assert Taken(next, [], t) == 0 && Run(next, []) == next;
    }
    later := [action] + rest;
    assert later[0] == action && later[1..] == rest;
  }

  /**
   * A follower whose leader is done can return, and then returns the leader's outcome; until then the leader
   * can take a step.
   */
  lemma FollowerCanReturn(actions: seq<Action>, f: nat)
    ensures var s := Run(INITIAL, actions);
            f < |s.threads| && s.threads[f].pc.Follow? ==>
              var id := s.threads[f].pc.wait;
              && id < |s.waits| && s.waits[id].leader < |s.threads|
              && var t := s.waits[id].leader;
                 if Live(s.threads[t].pc) then exists action :: Works(s, t, action)
                 else Apply(s, Woken(f)).threads[f].pc == Returned(s.threads[t].outcome)
  {
    var s := Run(INITIAL, actions);
    RunKeepsInv(INITIAL, actions);
    if f < |s.threads| && s.threads[f].pc.Follow? {
      assert ThreadFits(s, f);
      var id := s.threads[f].pc.wait;
      assert WaitFitsIn(s, id);
      if Live(s.threads[s.waits[id].leader].pc) {
        LeaderIsEnabled(s, s.waits[id].leader);
      }
    }
  }

  /** No call is ever stuck: from every reachable state a blocked follower can be brought to return. */
  lemma NoCallIsStuck(actions: seq<Action>, f: nat) returns (later: seq<Action>)
    ensures var s := Run(INITIAL, actions);
            f < |s.threads| && s.threads[f].pc.Follow? ==>
              && |later| <= 7 && f < |Run(s, later).threads| && Run(s, later).threads[f].pc.Returned?
  {
    var s := Run(INITIAL, actions);
    later := [];
    if f < |s.threads| && s.threads[f].pc.Follow? {
      RunKeepsInv(INITIAL, actions);
      later := ReturnsFrom(s, f);
    }
  }

  lemma ReturnsFrom(s: State, f: nat) returns (later: seq<Action>)
    requires Inv(s) && f < |s.threads| && s.threads[f].pc.Follow?
    ensures |later| <= 7 && f < |Run(s, later).threads| && Run(s, later).threads[f].pc.Returned?
  {
    assert ThreadFits(s, f);
    var id := s.threads[f].pc.wait;
    var t := s.waits[id].leader;
    assert WaitFitsIn(s, id);
    var work := [];
    if Live(s.threads[t].pc) {
      work := LeaderCanClose(s, t);
      OthersWait(s, work, t, f);
    }
    LeaderEnds(s, work, id);
    RunConcat(s, work, [Woken(f)]);
    var closed := Run(s, work);
    assert Run(closed, [Woken(f)]) == Apply(closed, Woken(f)) by {
      assert [Woken(f)][1..] == [];
    }
    later := work + [Woken(f)];
  }

  /** Steps of the leader alone leave a follower where it is. */
  lemma {:induction false} OthersWait(s: State, actions: seq<Action>, t: nat, f: nat)
    requires t != f && f < |s.threads| && Taken(s, actions, t) == |actions|
    ensures f < |Run(s, actions).threads| && Run(s, actions).threads[f] == s.threads[f]
    decreases |actions|
  {
    if actions != [] {
      TakenAtMost(Apply(s, actions[0]), actions[1..], t);
      OthersWait(Apply(s, actions[0]), actions[1..], t, f);
    }
  }

  lemma {:induction false} TakenAtMost(s: State, actions: seq<Action>, t: nat)
    ensures Taken(s, actions, t) <= |actions|
    decreases |actions|
  {
    if actions != [] {
      TakenAtMost(Apply(s, actions[0]), actions[1..], t);
    }
  }
}
