/** Synchronous calls that wait for a task's result on a channel of capacity one. */
module SyncWaiter {

  import opened Types

  type TaskId = string

  // Channels are numbered in the order in which they were made.
  type Chan = nat

  /** `taken` holds the channels that a resolver has removed and not yet sent to: the removal is
      under the lock, the send is after it. */
  datatype Hall = Hall(waiters: map<TaskId, Chan>, taken: multiset<Chan>, sent: multiset<Chan>, made: nat)

  datatype Event = Register(task: TaskId) | Take(task: TaskId) | Send(chan: Chan) | Remove(task: TaskId)

  predicate Enabled(h: Hall, e: Event) {
    match e
    case Send(chan) => chan in h.taken
    case Take(task) => task in h.waiters
    case _ => true
  }

  function Apply(h: Hall, e: Event): Hall
    requires Enabled(h, e)
  {
    match e
    case Register(task) => h.(waiters := h.waiters[task := h.made], made := h.made + 1)
    case Take(task) => h.(waiters := h.waiters - {task}, taken := h.taken + multiset{h.waiters[task]})
    case Send(chan) => h.(taken := h.taken - multiset{chan}, sent := h.sent + multiset{chan})
    case Remove(task) => h.(waiters := h.waiters - {task})
  }

  ghost predicate IsRun(states: seq<Hall>, events: seq<Event>) {
    && |states| == |events| + 1 && states[0] == Hall(map[], multiset{}, multiset{}, 0)
    && forall i :: 0 <= i < |events| ==> Enabled(states[i], events[i]) && states[i + 1] == Apply(states[i], events[i])
  }

  // A channel waits under one task, or is in one resolver's hands, or was sent to once.
  ghost predicate Inv(h: Hall) {
    && (forall c: Chan :: h.taken[c] + h.sent[c] <= 1)
    && (forall c: Chan :: c >= h.made ==> h.taken[c] + h.sent[c] == 0)
    && (forall t :: t in h.waiters ==> h.waiters[t] < h.made && h.taken[h.waiters[t]] + h.sent[h.waiters[t]] == 0)
    && (forall t, u :: t in h.waiters && u in h.waiters && h.waiters[t] == h.waiters[u] ==> t == u)
  }

  lemma EventKeepsInv(h: Hall, e: Event)
    requires Inv(h) && Enabled(h, e)
    ensures Inv(Apply(h, e))
  {
  }

  lemma {:induction false} RunKeepsInv(states: seq<Hall>, events: seq<Event>, i: nat)
    requires IsRun(states, events) && i < |states|
    ensures Inv(states[i])
  {
    if i > 0 {
      RunKeepsInv(states, events, i - 1);
      assert Enabled(states[i - 1], events[i - 1]) && states[i - 1 + 1] == Apply(states[i - 1], events[i - 1]);
      EventKeepsInv(states[i - 1], events[i - 1]);
    }
  }

  /** In every run each channel gets at most one result, however many resolvers race and whether
      or not the caller has given up; so a send always finds its channel's one cell empty and
      never blocks. */
  lemma AtMostOneResult(states: seq<Hall>, events: seq<Event>, i: nat, chan: Chan)
    requires IsRun(states, events) && i < |states|
    ensures states[i].sent[chan] <= 1
    ensures i < |events| && events[i] == Send(chan) ==> states[i].sent[chan] == 0
  {
    RunKeepsInv(states, events, i);
    if i < |events| {
      assert Enabled(states[i], events[i]);
    }
  }

  class Waiters {
    var waiters: map<TaskId, Chan>
    var taken: multiset<Chan>
    var sent: multiset<Chan>
    var made: nat

    ghost function State(): Hall
      reads this
    {
      Hall(waiters, taken, sent, made)
    }

    constructor ()
      ensures State() == Hall(map[], multiset{}, multiset{}, 0)
    {
      waiters, taken, sent, made := map[], multiset{}, multiset{}, 0;
    }

    method Register(task: TaskId) returns (chan: Chan)
      modifies this
      ensures State() == Apply(old(State()), Event.Register(task)) && chan == old(made)
      ensures State() == Hall(old(waiters)[task := chan], old(taken), old(sent), chan + 1)
    {
      chan := made;
      made := made + 1;
      waiters := waiters[task := chan];
    }

    /** The lock section of resolve; the send after it is `Deliver`. */
    method Resolve(task: TaskId) returns (chan: Option<Chan>)
      modifies this
      ensures chan == if task in old(waiters) then Some(old(waiters)[task]) else None
      ensures State() == if chan.Some? then Apply(old(State()), Take(task)) else old(State())
      ensures State() == Hall(
        old(waiters) - {task}, if chan.Some? then old(taken) + multiset{chan.value} else old(taken), old(sent), old(made))
    {
      if task !in waiters {
        return None;
      }
      chan := Some(waiters[task]);
      taken := taken + multiset{waiters[task]};
      waiters := waiters - {task};
    }

    method Deliver(chan: Chan)
      requires chan in taken
      modifies this
      ensures State() == Apply(old(State()), Send(chan))
      ensures State() == Hall(old(waiters), old(taken) - multiset{chan}, old(sent) + multiset{chan}, old(made))
    {
      taken := taken - multiset{chan};
      sent := sent + multiset{chan};
    }

    method Remove(task: TaskId)
      modifies this
      ensures State() == Apply(old(State()), Event.Remove(task))
      ensures State() == Hall(old(waiters) - {task}, old(taken), old(sent), old(made))
    {
      waiters := waiters - {task};
    }
  }
}
