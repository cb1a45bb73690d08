/** Streaming C calls from many threads: one process-wide mutex, one re-entry flag per thread, callbacks that call
    back. */
module Concurrency {

  /** Where one call is; an operation has a number of callbacks still to make. */
  datatype Place =
    | Entered(callbacks: nat)
    | Waiting(callbacks: nat)
    | Locked(callbacks: nat)
    | Operating(callbacks: nat)
    | InCallback(callbacks: nat)
    | Leaving

  /** The calls of a thread, the outermost first. */
  type Stack = seq<Place>

  datatype State = State(owner: int, flags: set<nat>, stacks: seq<Stack>)

  /** The owner of a free mutex. */
  const NOBODY := -1

  datatype Action =
    | Call(callbacks: nat)
    | Check
    | Acquire
    | Raise
    | BeginCallback
    | EndCallback
    | Finish
    | Release

  function Top(stack: Stack, p: Place): Stack
    requires stack != []
  {
    stack[..|stack| - 1] + [p]
  }

  function Pop(stack: Stack): Stack
    requires stack != []
  {
    stack[..|stack| - 1]
  }

  function Put(s: State, t: nat, stack: Stack): State
    requires t < |s.stacks|
  {
    s.(stacks := s.stacks[t := stack])
  }

  /** The callbacks a call still has to make. */
  function Remaining(p: Place): nat
  {
    if p.Leaving? then 0 else p.callbacks
  }

  /** The action is what a call can do next; an acquisition needs a free mutex. */
  predicate Possible(top: Place, a: Action, free: bool)
  {
    match a
    case Call(_) => top.InCallback?
    case Check => top.Entered?
    case Acquire => top.Waiting? && free
    case Raise => top.Locked?
    case BeginCallback => top.Operating? && Remaining(top) > 0
    case EndCallback => top.InCallback?
    case Finish => top.Operating? && Remaining(top) == 0
    case Release => top.Leaving?
  }

  /** The action is possible for thread `t`. */
  predicate Enabled(s: State, t: nat, a: Action)
  {
    t < |s.stacks|
    && var stack := s.stacks[t];
       if stack == [] then a.Call? else Possible(stack[|stack| - 1], a, s.owner == NOBODY)
  }

  /** What the action does. A call checks the flag of its own thread before it goes near the mutex. */
  function Act(s: State, t: nat, a: Action): State
    requires Enabled(s, t, a)
  {
    var stack := s.stacks[t];
    match a
    case Call(callbacks) => Put(s, t, stack + [Entered(callbacks)])
    case Check =>
      if t in s.flags then Put(s, t, Pop(stack)) else Put(s, t, Top(stack, Waiting(Remaining(stack[|stack| - 1]))))
    case Acquire => Put(s, t, Top(stack, Locked(Remaining(stack[|stack| - 1])))).(owner := t)
    case Raise => Put(s, t, Top(stack, Operating(Remaining(stack[|stack| - 1])))).(flags := s.flags + {t})
    case BeginCallback => Put(s, t, Top(stack, InCallback(Remaining(stack[|stack| - 1]) - 1)))
    case EndCallback => Put(s, t, Top(stack, Operating(Remaining(stack[|stack| - 1]))))
    case Finish => Put(s, t, Top(stack, Leaving)).(flags := s.flags - {t})
    case Release => Put(s, t, Pop(stack)).(owner := NOBODY)
  }

  predicate Initial(s: State)
  {
    s.owner == NOBODY && s.flags == {} && forall t :: 0 <= t < |s.stacks| ==> s.stacks[t] == []
  }

  datatype Event = Event(thread: nat, action: Action)

  /** The state after some events; nothing when one of them was not possible. */
  ghost predicate Leads(s: State, events: seq<Event>, t: State)
    decreases |events|
  {
    if events == [] then t == s
    else
      && Enabled(s, events[0].thread, events[0].action)
      && Leads(Act(s, events[0].thread, events[0].action), events[1..], t)
  }

  ghost predicate Reachable(s: State)
  {
    exists start: State, events: seq<Event> :: Initial(start) && Leads(start, events, s)
  }

  // The invariant.

  /** Between locking and unlocking. */
  predicate Holding(stack: Stack)
  {
    stack != [] && (stack[0].Locked? || stack[0].Operating? || stack[0].InCallback? || stack[0].Leaving?)
  }

  /** Between raising and lowering the flag. */
  predicate Flagged(stack: Stack)
  {
    stack != [] && (stack[0].Operating? || stack[0].InCallback?)
  }

  /** A call inside a call is only ever one that is about to be turned away from a callback. */
  predicate WellNested(stack: Stack)
  {
    |stack| <= 1 || (|stack| == 2 && stack[0].InCallback? && stack[1].Entered?)
  }

  predicate Invariant(s: State)
  {
    && (forall t :: 0 <= t < |s.stacks| ==> WellNested(s.stacks[t]))
    && (forall t :: 0 <= t < |s.stacks| ==> (Holding(s.stacks[t]) <==> s.owner == t))
    && (forall t :: 0 <= t < |s.stacks| ==> (Flagged(s.stacks[t]) <==> t in s.flags))
    && (s.owner == NOBODY || 0 <= s.owner < |s.stacks|)
    && (forall t :: t in s.flags ==> t < |s.stacks|)
  }

  lemma InitialInvariant(s: State)
    requires Initial(s)
    ensures Invariant(s)
  {
  }

  lemma Preserved(s: State, t: nat, a: Action)
    requires Invariant(s) && Enabled(s, t, a)
    ensures Invariant(Act(s, t, a)) && |Act(s, t, a).stacks| == |s.stacks|
  {
    var stack, after := s.stacks[t], Act(s, t, a);
    assert WellNested(stack);
    StackStep(s, t, a);
    hide WellNested, Holding, Flagged;
    forall u | 0 <= u < |after.stacks| && u != t
      ensures after.stacks[u] == s.stacks[u]
    {
    }
  }

  /** What one action does to the stack, the mutex and the flag of its thread. */
  lemma StackStep(s: State, t: nat, a: Action)
    requires Invariant(s) && Enabled(s, t, a)
    ensures var after := Act(s, t, a);
            && WellNested(after.stacks[t])
            && (Holding(after.stacks[t]) <==> after.owner == t)
            && (Flagged(after.stacks[t]) <==> t in after.flags)
            && (forall u: nat :: u != t ==> (u in after.flags <==> u in s.flags))
            && (after.owner == s.owner
                || ((s.owner == NOBODY || s.owner == t) && (after.owner == NOBODY || after.owner == t)))
  {
    assert WellNested(s.stacks[t]);
    assert Holding(s.stacks[t]) <==> s.owner == t;
    assert Flagged(s.stacks[t]) <==> t in s.flags;
  }

  lemma {:induction false} LedInvariant(s: State, events: seq<Event>, t: State)
    requires Invariant(s) && Leads(s, events, t)
    ensures Invariant(t)
    decreases |events|
  {
    hide Invariant, Enabled, Act;
    if events != [] {
      Preserved(s, events[0].thread, events[0].action);
      LedInvariant(Act(s, events[0].thread, events[0].action), events[1..], t);
    }
  }

  /** The invariant holds in every reachable state. */
  lemma ReachableInvariant(s: State)
    requires Reachable(s)
    ensures Invariant(s)
  {
    hide Invariant, Leads;
    var start: State, events: seq<Event> :| Initial(start) && Leads(start, events, s);
    InitialInvariant(start);
    LedInvariant(start, events, s);
  }

  // What it means.

  /** At most one operation runs at a time, and the flag is up only while its thread holds the mutex. */
  lemma MutualExclusion(s: State, t: nat, u: nat)
    requires Reachable(s) && t < |s.stacks| && u < |s.stacks|
    ensures Holding(s.stacks[t]) && Holding(s.stacks[u]) ==> t == u
    ensures t in s.flags ==> s.owner == t && Flagged(s.stacks[t])
  {
    ReachableInvariant(s);
    assert Holding(s.stacks[t]) <==> s.owner == t;
    assert Holding(s.stacks[u]) <==> s.owner == u;
    assert Flagged(s.stacks[t]) <==> t in s.flags;
  }

  /** A nested call can only be turned away, and that leaves mutex, flags and the outer operation as they are. */
  lemma NestedCallRejected(s: State, t: nat, a: Action)
    requires Reachable(s) && t < |s.stacks| && |s.stacks[t]| > 1 && Enabled(s, t, a)
    ensures a.Check?
    ensures var after := Act(s, t, a);
            && after.owner == s.owner && after.flags == s.flags
            && after.stacks[t] == s.stacks[t][..1] && s.stacks[t][0].InCallback?
            && forall u :: 0 <= u < |s.stacks| && u != t ==> after.stacks[u] == s.stacks[u]
  {
    ReachableInvariant(s);
    assert WellNested(s.stacks[t]);
    assert Flagged(s.stacks[t]) <==> t in s.flags;
  }

  // No deadlock.

  /** Some call that is under way can go on. */
  ghost predicate CanProceed(s: State)
  {
    exists t: nat, a: Action :: !a.Call? && Enabled(s, t, a)
  }

  predicate Idle(s: State)
  {
    forall t :: 0 <= t < |s.stacks| ==> s.stacks[t] == []
  }

  /** What a thread can do next, unless it waits for a mutex that somebody holds. */
  function Next(place: Place): Action
  {
    match place
    case Entered(_) => Check
    case Waiting(_) => Acquire
    case Locked(_) => Raise
    case Operating(callbacks) => if callbacks > 0 then BeginCallback else Finish
    case InCallback(_) => EndCallback
    case Leaving => Release
  }

  lemma NextEnabled(s: State, t: nat)
    requires t < |s.stacks| && s.stacks[t] != []
    requires s.stacks[t][|s.stacks[t]| - 1].Waiting? ==> s.owner == NOBODY
    ensures Enabled(s, t, Next(s.stacks[t][|s.stacks[t]| - 1])) && !Next(s.stacks[t][|s.stacks[t]| - 1]).Call?
  {
  }

  /** No reachable state is stuck: as long as a call is under way, one of them can go on. */
  lemma NoDeadlock(s: State)
    requires Reachable(s) && !Idle(s)
    ensures CanProceed(s)
  {
    ReachableInvariant(s);
    var t :| 0 <= t < |s.stacks| && s.stacks[t] != [];
    var waiting := s.stacks[t][|s.stacks[t]| - 1].Waiting?;
    if waiting && s.owner != NOBODY {
      assert Holding(s.stacks[s.owner]) && WellNested(s.stacks[s.owner]);
      NextEnabled(s, s.owner);
    } else {
      NextEnabled(s, t);
    }
  }

  // And no call goes on forever.

  /** An upper bound of what a call still has to do. */
  function Effort(place: Place): nat
  {
    match place
    case Entered(callbacks) => 2 * callbacks + 6
    case Waiting(callbacks) => 2 * callbacks + 5
    case Locked(callbacks) => 2 * callbacks + 4
    case Operating(callbacks) => 2 * callbacks + 3
    case InCallback(callbacks) => 2 * callbacks + 4
    case Leaving => 2
  }

  function StackEffort(stack: Stack): nat
  {
    if stack == [] then 0 else StackEffort(stack[..|stack| - 1]) + Effort(stack[|stack| - 1])
  }

  function Work(stacks: seq<Stack>): nat
  {
    if stacks == [] then 0 else Work(stacks[..|stacks| - 1]) + StackEffort(stacks[|stacks| - 1])
  }

  lemma {:induction false} WorkPut(stacks: seq<Stack>, t: nat, stack: Stack)
    requires t < |stacks|
    ensures Work(stacks[t := stack]) == Work(stacks) - StackEffort(stacks[t]) + StackEffort(stack)
  {
    hide StackEffort;
    var n := |stacks| - 1;
    if t == n {
      assert stacks[t := stack][..n] == stacks[..n];
    } else {
      assert stacks[t := stack][..n] == stacks[..n][t := stack];
      WorkPut(stacks[..n], t, stack);
    }
  }

  lemma EffortOfTop(stack: Stack, p: Place)
    requires stack != []
    ensures StackEffort(Top(stack, p)) == StackEffort(stack) - Effort(stack[|stack| - 1]) + Effort(p)
    ensures StackEffort(Pop(stack)) == StackEffort(stack) - Effort(stack[|stack| - 1])
  {
    assert Top(stack, p)[..|stack| - 1] == stack[..|stack| - 1];
  }

  /** Every action but a new call is progress. So, as no reachable state is stuck, the calls under way all return within
      a bounded number of actions, however these are interleaved. */
  lemma EveryActionIsProgress(s: State, t: nat, a: Action)
    requires Enabled(s, t, a) && !a.Call?
    ensures Work(Act(s, t, a).stacks) < Work(s.stacks)
  {
    hide Work, StackEffort;
    var stack := s.stacks[t];
    var top := stack[|stack| - 1];
    WorkPut(s.stacks, t, Act(s, t, a).stacks[t]);
    forall p
      ensures StackEffort(Top(stack, p)) == StackEffort(stack) - Effort(top) + Effort(p)
    {
      EffortOfTop(stack, p);
    }
    EffortOfTop(stack, top);
  }

  /** Left to themselves, the calls under way bring every reachable state back to rest. */
  lemma {:induction false} ComesToRest(s: State) returns (events: seq<Event>, rest: State)
    requires Reachable(s)
    ensures Leads(s, events, rest) && Idle(rest) && |events| <= Work(s.stacks)
    ensures forall i :: 0 <= i < |events| ==> !events[i].action.Call?
    decreases Work(s.stacks)
  {
    hide Enabled, Act, Work;
    if Idle(s) {
      events, rest := [], s;
    } else {
      NoDeadlock(s);
      var t: nat, a: Action :| !a.Call? && Enabled(s, t, a);
      EveryActionIsProgress(s, t, a);
      StillReachable(s, t, a);
      var more;
      more, rest := ComesToRest(Act(s, t, a));
      events := [Event(t, a)] + more;
    }
  }

  lemma StillReachable(s: State, t: nat, a: Action)
    requires Reachable(s) && Enabled(s, t, a)
    ensures Reachable(Act(s, t, a))
  {
    hide Enabled, Act;
    var start: State, events: seq<Event> :| Initial(start) && Leads(start, events, s);
    LedOn(start, events, s, t, a);
    assert Leads(start, events + [Event(t, a)], Act(s, t, a));
  }

  lemma {:induction false} LedOn(start: State, events: seq<Event>, s: State, t: nat, a: Action)
    requires Leads(start, events, s) && Enabled(s, t, a)
    ensures Leads(start, events + [Event(t, a)], Act(s, t, a))
    decreases |events|
  {
    hide Enabled, Act;
    var whole := events + [Event(t, a)];
    if events == [] {
      assert whole == [Event(t, a)] && whole[1..] == [];
    } else {
      assert whole[1..] == events[1..] + [Event(t, a)];
      LedOn(Act(start, events[0].thread, events[0].action), events[1..], s, t, a);
    }
  }
}
