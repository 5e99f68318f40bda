/** Auto-approval of repeated operations: an hourly cap checked and charged in separate lock
    sections, and a pruned history of manual approvals. */
module AutoApproval {

  type User = string
  // The digest of user, tool and parameters, taken as injective.
  type Key = string

  datatype Config = Config(maxAuto: int, required: int, window: int)

  ghost predicate ConfigOk(cfg: Config) {
    cfg.maxAuto > 0 && cfg.required > 0 && cfg.window > 0
  }

  datatype Approver = Approver(history: map<Key, seq<int>>, counters: map<User, int>, hourSlot: int)

  function Charged(a: Approver, user: User): int {
    if user in a.counters then a.counters[user] else 0
  }

  function Approvals(history: map<Key, seq<int>>, key: Key): seq<int> {
    if key in history then history[key] else []
  }

  // How many of the approvals come after the cutoff.
  function Recent(times: seq<int>, cutoff: int): (n: nat)
    ensures n <= |times|
  {
    if times == [] then 0 else (if times[0] > cutoff then 1 else 0) + Recent(times[1..], cutoff)
  }

  function After(times: seq<int>, cutoff: int): seq<int> {
    if times == [] then [] else (if times[0] > cutoff then [times[0]] else []) + After(times[1..], cutoff)
  }

  // ---------- The lock sections ----------

  // First section: a new hour clears all counters; the caller passes below the cap.
  function CheckCap(cfg: Config, a: Approver, user: User, hour: int): (Approver, bool) {
    var a1 := if hour != a.hourSlot then a.(counters := map[], hourSlot := hour) else a;
    (a1, Charged(a1, user) < cfg.maxAuto)
  }

  // Last section: charges the counter.
  function Charge(a: Approver, user: User): Approver {
    a.(counters := a.counters[user := Charged(a, user) + 1])
  }

  // RecordManualApproval: appends the approval, then drops what is out of the window.
  function Record(cfg: Config, a: Approver, key: Key, now: int, later: int): Approver {
    a.(history := a.history[key := After(Approvals(a.history, key) + [now], later - cfg.window)])
  }

  // ---------- Callers in any interleaving ----------

  // Past the cap; then with the cutoff fixed; then with enough approvals counted.
  datatype Caller = Idle | Passed(user: User, key: Key) | Timed(user: User, key: Key, cutoff: int) | Granting(user: User)

  /** The last three fields are history: every manual approval ever recorded, the cutoff of the
      last pruning of each key, and the latest time at which an approval was recorded. */
  datatype System = System(a: Approver, callers: seq<Caller>, log: map<Key, seq<int>>, pruned: map<Key, int>, clock: int)

  // A caller reads the clock under no lock, and the history in a section of its own.
  datatype Step =
    | Enter(caller: nat, user: User, key: Key, hour: int)
    | ReadClock(caller: nat, now: int)
    | ReadHistory(caller: nat)
    | Grant(caller: nat)
    | RecordManual(key: Key, now: int, later: int)

  // Recording holds the lock for both of its clock readings, so these do not run backwards.
  predicate Enabled(s: System, step: Step) {
    match step
    case Enter(c, _, _, _) => c < |s.callers| && s.callers[c].Idle?
    case ReadClock(c, _) => c < |s.callers| && s.callers[c].Passed?
    case ReadHistory(c) => c < |s.callers| && s.callers[c].Timed?
    case Grant(c) => c < |s.callers| && s.callers[c].Granting?
    case RecordManual(_, now, later) => s.clock <= now <= later
  }

  function Counted(s: System, key: Key, cutoff: int): nat {
    Recent(Approvals(s.a.history, key), cutoff)
  }

  function Apply(cfg: Config, s: System, step: Step): System
    requires Enabled(s, step)
  {
    match step
    case Enter(c, user, key, hour) =>
      var (a, passed) := CheckCap(cfg, s.a, user, hour);
      s.(a := a, callers := s.callers[c := if passed then Passed(user, key) else Idle])
    case ReadClock(c, now) =>
      s.(callers := s.callers[c := Timed(s.callers[c].user, s.callers[c].key, now - cfg.window)])
    case ReadHistory(c) =>
      var enough := Counted(s, s.callers[c].key, s.callers[c].cutoff) >= cfg.required;
      s.(callers := s.callers[c := if enough then Granting(s.callers[c].user) else Idle])
    case Grant(c) =>
      s.(a := Charge(s.a, s.callers[c].user), callers := s.callers[c := Idle])
    case RecordManual(key, now, later) =>
      s.(a := Record(cfg, s.a, key, now, later), log := s.log[key := Approvals(s.log, key) + [now]],
         pruned := s.pruned[key := later - cfg.window], clock := later)
  }

  // The callers that have passed the cap for a user and have not been charged yet.
  predicate IsInFlight(c: Caller, user: User) {
    !c.Idle? && c.user == user
  }

  function InFlight(callers: seq<Caller>, user: User): (n: nat)
    ensures n <= |callers|
  {
    if callers == [] then 0 else (if IsInFlight(callers[0], user) then 1 else 0) + InFlight(callers[1..], user)
  }

  lemma {:induction false} InFlightUpdate(callers: seq<Caller>, c: nat, v: Caller, user: User)
    requires c < |callers|
    ensures InFlight(callers[c := v], user) ==
      InFlight(callers, user) - (if IsInFlight(callers[c], user) then 1 else 0) + (if IsInFlight(v, user) then 1 else 0)
  {
    if c > 0 {
      InFlightUpdate(callers[1..], c - 1, v, user);
      assert callers[c := v][1..] == callers[1..][c - 1 := v];
    } else {
      assert callers[0 := v][1..] == callers[1..];
    }
  }

  // ---------- The cap under concurrency ----------

  ghost predicate CapFor(cfg: Config, s: System, user: User) {
    0 <= Charged(s.a, user) && Charged(s.a, user) + InFlight(s.callers, user) <= Cap(cfg, s)
  }

  ghost predicate CapOk(cfg: Config, s: System) {
    forall user :: CapFor(cfg, s, user)
  }

  // One approval more for each additional concurrent caller.
  ghost function Cap(cfg: Config, s: System): int {
    cfg.maxAuto + |s.callers| - 1
  }

  lemma EnterKeepsCap(cfg: Config, s: System, step: Step, user: User)
    requires ConfigOk(cfg) && |s.callers| > 0 && CapFor(cfg, s, user) && Enabled(s, step) && step.Enter?
    ensures CapFor(cfg, Apply(cfg, s, step), user)
  {
    var c, s' := step.caller, Apply(cfg, s, step);
    InFlightUpdate(s.callers, c, s'.callers[c], user);
    assert s'.callers == s.callers[c := s'.callers[c]];
    hide InFlight;
    assert InFlight(s'.callers, user) <= |s'.callers|;
  }

  lemma MoveKeepsCap(cfg: Config, s: System, step: Step, user: User)
    requires CapFor(cfg, s, user) && Enabled(s, step) && !step.Enter?
    ensures CapFor(cfg, Apply(cfg, s, step), user)
  {
    var s' := Apply(cfg, s, step);
    if !step.RecordManual? {
      var c := step.caller;
      InFlightUpdate(s.callers, c, s'.callers[c], user);
      assert s'.callers == s.callers[c := s'.callers[c]];
    }
    hide InFlight;
    hide Recent;
    hide After;
  }

  lemma StepKeepsCap(cfg: Config, s: System, step: Step)
    requires ConfigOk(cfg) && |s.callers| > 0 && CapOk(cfg, s) && Enabled(s, step)
    ensures CapOk(cfg, Apply(cfg, s, step)) && |Apply(cfg, s, step).callers| == |s.callers|
  {
    forall user ensures CapFor(cfg, Apply(cfg, s, step), user) {
      assert CapFor(cfg, s, user);
      if step.Enter? {
        EnterKeepsCap(cfg, s, step, user);
      } else {
        MoveKeepsCap(cfg, s, step, user);
      }
    }
  }

  ghost predicate Initial(s: System) {
    && s.a.history == map[] && s.a.counters == map[] && s.log == map[] && s.pruned == map[]
    && |s.callers| > 0 && forall c :: 0 <= c < |s.callers| ==> s.callers[c].Idle?
  }

  ghost predicate IsRun(cfg: Config, states: seq<System>, steps: seq<Step>) {
    && |states| == |steps| + 1 && Initial(states[0])
    && forall i :: 0 <= i < |steps| ==> Enabled(states[i], steps[i]) && states[i + 1] == Apply(cfg, states[i], steps[i])
  }

  lemma {:induction false} NobodyInFlight(callers: seq<Caller>, user: User)
    requires forall c :: 0 <= c < |callers| ==> callers[c].Idle?
    ensures InFlight(callers, user) == 0
  {
    if callers != [] {
      NobodyInFlight(callers[1..], user);
    }
  }

  /** With n concurrent callers, the approvals charged in an hour plus those about to be charged
      never exceed the cap by more than n - 1, across any number of hour changes. */
  lemma {:induction false} CapHolds(cfg: Config, states: seq<System>, steps: seq<Step>, i: nat, user: User)
    requires ConfigOk(cfg) && IsRun(cfg, states, steps) && i < |states|
    ensures |states[i].callers| == |states[0].callers|
    ensures Charged(states[i].a, user) + InFlight(states[i].callers, user) <= cfg.maxAuto + |states[0].callers| - 1
  {
    CapInvariant(cfg, states, steps, i);
    assert CapFor(cfg, states[i], user);
  }

  lemma {:induction false} CapInvariant(cfg: Config, states: seq<System>, steps: seq<Step>, i: nat)
    requires ConfigOk(cfg) && IsRun(cfg, states, steps) && i < |states|
    ensures |states[i].callers| == |states[0].callers| && CapOk(cfg, states[i])
  {
    if i == 0 {
      forall user ensures CapFor(cfg, states[0], user) {
        NobodyInFlight(states[0].callers, user);
      }
    } else {
      CapInvariant(cfg, states, steps, i - 1);
      assert Enabled(states[i - 1], steps[i - 1]) && states[i - 1 + 1] == Apply(cfg, states[i - 1], steps[i - 1]);
      StepKeepsCap(cfg, states[i - 1], steps[i - 1]);
    }
  }

  // ---------- What the counters count ----------

  // The grants to a user since the last entry that began a new hour.
  ghost function GrantsThisHour(states: seq<System>, steps: seq<Step>, i: nat, user: User): nat
    requires i <= |steps| < |states|
  {
    if i == 0 then 0
    else
      var s, step := states[i - 1], steps[i - 1];
      if step.Enter? && step.hour != s.a.hourSlot then 0
      else
        GrantsThisHour(states, steps, i - 1, user) +
        if step.Grant? && step.caller < |s.callers| && s.callers[step.caller] == Granting(user) then 1 else 0
  }

  lemma CounterStep(cfg: Config, s: System, step: Step, user: User)
    requires Enabled(s, step)
    ensures Charged(Apply(cfg, s, step).a, user) ==
      if step.Enter? && step.hour != s.a.hourSlot then 0
      else Charged(s.a, user) + if step.Grant? && s.callers[step.caller] == Granting(user) then 1 else 0
  {
    hide Recent;
    hide After;
  }

  /** In every run a user's counter is the number of grants to that user since the hour last changed. */
  lemma {:induction false} CounterExactly(cfg: Config, states: seq<System>, steps: seq<Step>, i: nat, user: User)
    requires IsRun(cfg, states, steps) && i <= |steps|
    ensures Charged(states[i].a, user) == GrantsThisHour(states, steps, i, user)
  {
    if i > 0 {
      CounterExactly(cfg, states, steps, i - 1, user);
      assert Enabled(states[i - 1], steps[i - 1]) && states[i - 1 + 1] == Apply(cfg, states[i - 1], steps[i - 1]);
      CounterStep(cfg, states[i - 1], steps[i - 1], user);
      hide Apply;
    }
  }

  /** So a caller is let in exactly when the hour is a new one, or fewer grants than the cap have
      been made to the user in it. */
  lemma EntryExactly(cfg: Config, states: seq<System>, steps: seq<Step>, i: nat)
    requires ConfigOk(cfg) && IsRun(cfg, states, steps) && i < |steps| && steps[i].Enter?
    ensures var Enter(c, user, key, hour) := steps[i];
      && c < |states[i + 1].callers|
      && states[i + 1].callers[c] ==
           (if hour != states[i].a.hourSlot || GrantsThisHour(states, steps, i, user) < cfg.maxAuto then Passed(user, key) else Idle)
      && states[i + 1].a.hourSlot == hour
  {
    CounterExactly(cfg, states, steps, i, steps[i].user);
    assert Enabled(states[i], steps[i]) && states[i + 1] == Apply(cfg, states[i], steps[i]);
  }

  // ---------- What a caller counts ----------

  // Recent is the number of times that After keeps.
  lemma {:induction false} RecentIsSize(times: seq<int>, cutoff: int)
    ensures Recent(times, cutoff) == |After(times, cutoff)|
  {
    if times != [] {
      RecentIsSize(times[1..], cutoff);
    }
  }

  // After keeps exactly the later times, as often as they occur.
  lemma {:induction false} AfterExactly(times: seq<int>, cutoff: int, t: int)
    ensures multiset(After(times, cutoff))[t] == if t > cutoff then multiset(times)[t] else 0
  {
    if times != [] {
      AfterExactly(times[1..], cutoff, t);
      assert times == [times[0]] + times[1..];
      var head := if times[0] > cutoff then [times[0]] else [];
      assert After(times, cutoff) == head + After(times[1..], cutoff);
    }
  }

  lemma {:induction false} RecentConcat(a: seq<int>, b: seq<int>, cutoff: int)
    ensures Recent(a + b, cutoff) == Recent(a, cutoff) + Recent(b, cutoff)
  {
    if a == [] {
      assert a + b == b;
    } else {
      assert (a + b)[1..] == a[1..] + b;
      RecentConcat(a[1..], b, cutoff);
    }
  }

  function Later(a: int, b: int): int {
    if a >= b then a else b
  }

  // Counting after a pruning is counting with the later of the two cutoffs.
  lemma {:induction false} PruningRaisesCutoff(times: seq<int>, p: int, c: int)
    ensures Recent(After(times, p), c) == Recent(times, Later(p, c))
  {
    if times != [] {
      PruningRaisesCutoff(times[1..], p, c);
      var head := if times[0] > p then [times[0]] else [];
      RecentConcat(head, After(times[1..], p), c);
    }
  }

  ghost predicate NoneBetween(times: seq<int>, c: int, p: int) {
    forall i :: 0 <= i < |times| ==> !(c < times[i] <= p)
  }

  // Raising a cutoff never counts more, and counts the same exactly when nothing lies between.
  lemma {:induction false} RaisedCutoff(times: seq<int>, c: int, p: int)
    ensures Recent(times, Later(p, c)) <= Recent(times, c)
    ensures Recent(times, Later(p, c)) == Recent(times, c) <==> NoneBetween(times, c, p)
  {
    if times != [] {
      RaisedCutoff(times[1..], c, p);
      if NoneBetween(times, c, p) {
        forall i | 0 <= i < |times| - 1 ensures !(c < times[1..][i] <= p) {
          assert !(c < times[i + 1] <= p);
        }
      } else {
        var i :| 0 <= i < |times| && c < times[i] <= p;
        if i > 0 {
          assert times[1..][i - 1] == times[i];
        }
      }
    }
  }

  lemma AfterStep(times: seq<int>, i: nat, cutoff: int)
    requires i < |times|
    ensures After(times[i..], cutoff) == (if times[i] > cutoff then [times[i]] else []) + After(times[i + 1..], cutoff)
  {
    assert times[i..][1..] == times[i + 1..];
  }

  lemma AfterNothing(times: seq<int>, cutoff: int)
    requires times == []
    ensures After(times, cutoff) == []
  {
  }

  // The cutoff a count with cutoff c amounts to on the full log.
  function Effective(s: System, key: Key, c: int): int {
    if key in s.pruned then Later(s.pruned[key], c) else c
  }

  ghost predicate CountsAs(s: System, key: Key, c: int) {
    Counted(s, key, c) == Recent(Approvals(s.log, key), Effective(s, key, c))
  }

  // Every count, with whatever cutoff, is the full log's count at the later of it and the last pruning.
  ghost predicate HistoryOk(cfg: Config, s: System) {
    && (forall key, c :: CountsAs(s, key, c))
    && (forall key :: key in s.pruned ==> s.pruned[key] <= s.clock - cfg.window)
  }

  lemma RecordKeepsCount(cfg: Config, s: System, step: Step, c: int)
    requires step.RecordManual? && Enabled(s, step) && CountsAs(s, step.key, Later(step.later - cfg.window, c))
    requires step.key in s.pruned ==> s.pruned[step.key] <= s.clock - cfg.window
    ensures CountsAs(Apply(cfg, s, step), step.key, c)
  {
    hide Recent;
    hide After;
    var kept, full, p := Approvals(s.a.history, step.key), Approvals(s.log, step.key), step.later - cfg.window;
    PruningRaisesCutoff(kept + [step.now], p, c);
    RecentConcat(kept, [step.now], Later(p, c));
    RecentConcat(full, [step.now], Later(p, c));
    assert Effective(s, step.key, Later(p, c)) == Later(p, c);
    assert Effective(Apply(cfg, s, step), step.key, c) == Later(p, c);
  }

  lemma StepKeepsHistory(cfg: Config, s: System, step: Step)
    requires HistoryOk(cfg, s) && Enabled(s, step)
    ensures HistoryOk(cfg, Apply(cfg, s, step))
  {
    var s' := Apply(cfg, s, step);
    forall key, c ensures CountsAs(s', key, c) {
      assert CountsAs(s, key, c);
      if step.RecordManual? && key == step.key {
        assert CountsAs(s, key, Later(step.later - cfg.window, c));
        RecordKeepsCount(cfg, s, step, c);
      } else {
        hide Recent;
        hide After;
        assert Approvals(s'.a.history, key) == Approvals(s.a.history, key);
        assert Approvals(s'.log, key) == Approvals(s.log, key);
        assert Effective(s', key, c) == Effective(s, key, c);
      }
    }
  }

  lemma {:induction false} RunKeepsHistory(cfg: Config, states: seq<System>, steps: seq<Step>, i: nat)
    requires IsRun(cfg, states, steps) && i < |states|
    ensures HistoryOk(cfg, states[i])
  {
    if i > 0 {
      RunKeepsHistory(cfg, states, steps, i - 1);
      assert Enabled(states[i - 1], steps[i - 1]) && states[i - 1 + 1] == Apply(cfg, states[i - 1], steps[i - 1]);
      StepKeepsHistory(cfg, states[i - 1], steps[i - 1]);
    } else {
      forall key, c ensures CountsAs(states[0], key, c) {
      }
    }
  }

  /** In every run, a count on the pruned history is the full log's count at the later of the
      caller's cutoff and the last pruning of the key. So it never exceeds what the full log
      gives, and it equals it exactly when no approval lies between the two; in particular when
      the caller fixed its cutoff no earlier than that pruning. */
  lemma PruningExactly(cfg: Config, states: seq<System>, steps: seq<Step>, i: nat, key: Key, c: int)
    requires IsRun(cfg, states, steps) && i < |states|
    ensures var s, full := states[i], Approvals(states[i].log, key);
      && Counted(s, key, c) == Recent(full, Effective(s, key, c))
      && Counted(s, key, c) <= Recent(full, c)
      && (key in s.pruned ==> (Counted(s, key, c) == Recent(full, c) <==> NoneBetween(full, c, s.pruned[key])))
      && (key in s.pruned && s.pruned[key] <= c ==> Counted(s, key, c) == Recent(full, c))
      && (key !in s.pruned ==> Counted(s, key, c) == Recent(full, c))
  {
    RunKeepsHistory(cfg, states, steps, i);
    var s := states[i];
    assert CountsAs(s, key, c);
    if key in s.pruned {
      RaisedCutoff(Approvals(s.log, key), c, s.pruned[key]);
    }
  }

  /** A caller is granted only what the full log would grant it. */
  lemma GrantIsJustified(cfg: Config, states: seq<System>, steps: seq<Step>, i: nat)
    requires IsRun(cfg, states, steps) && i < |steps| && steps[i].ReadHistory?
    requires steps[i].caller < |states[i + 1].callers| && states[i + 1].callers[steps[i].caller].Granting?
    ensures var caller := states[i].callers[steps[i].caller];
      caller.Timed? && Recent(Approvals(states[i].log, caller.key), caller.cutoff) >= cfg.required
  {
    assert Enabled(states[i], steps[i]) && states[i + 1] == Apply(cfg, states[i], steps[i]);
    var caller := states[i].callers[steps[i].caller];
    PruningExactly(cfg, states, steps, i, caller.key, caller.cutoff);
  }

  // ---------- The bound is reached ----------

  ghost predicate Leads(cfg: Config, s: System, steps: seq<Step>, s': System)
    decreases |steps|
  {
    if steps == [] then s == s'
    else Enabled(s, steps[0]) && Leads(cfg, Apply(cfg, s, steps[0]), steps[1..], s')
  }

  lemma {:induction false} LeadsConcat(cfg: Config, s: System, a: seq<Step>, m: System, b: seq<Step>, e: System)
    requires Leads(cfg, s, a, m) && Leads(cfg, m, b, e)
    ensures Leads(cfg, s, a + b, e)
    decreases |a|
  {
    hide Apply;
    hide Enabled;
    if a == [] {
      assert a + b == b;
    } else {
      assert (a + b)[1..] == a[1..] + b;
      LeadsConcat(cfg, Apply(cfg, s, a[0]), a[1..], m, b, e);
    }
  }

  // A walk from the end of a run extends the run.
  lemma {:induction false} LeadsOn(cfg: Config, states: seq<System>, steps: seq<Step>, more: seq<Step>, s': System) returns (ss: seq<System>)
    requires IsRun(cfg, states, steps) && Leads(cfg, states[|steps|], more, s')
    ensures IsRun(cfg, ss, steps + more) && ss[0] == states[0] && ss[|steps + more|] == s'
    decreases |more|
  {
    if more == [] {
      assert steps + more == steps;
      ss := states;
    } else {
      var s, step := states[|steps|], more[0];
      ss := LeadsOn(cfg, states + [Apply(cfg, s, step)], steps + [step], more[1..], s');
      assert steps + [step] + more[1..] == steps + more;
    }
  }

  // Every caller makes the same move, from k on, one after the other.
  lemma {:induction false} AllEnter(cfg: Config, s: System, user: User, key: Key, k: nat) returns (steps: seq<Step>, s': System)
    requires k <= |s.callers| && Charged(s.a, user) < cfg.maxAuto
    requires forall c :: 0 <= c < |s.callers| ==> s.callers[c] == if c < k then Passed(user, key) else Idle
    ensures Leads(cfg, s, steps, s') && s' == s.(callers := s'.callers) && |s'.callers| == |s.callers|
    ensures forall c :: 0 <= c < |s'.callers| ==> s'.callers[c] == Passed(user, key)
    decreases |s.callers| - k
  {
    if k == |s.callers| {
      steps, s' := [], s;
    } else {
      var step := Enter(k, user, key, s.a.hourSlot);
      steps, s' := AllEnter(cfg, Apply(cfg, s, step), user, key, k + 1);
      steps := [step] + steps;
    }
  }

  lemma {:induction false} AllReadClock(cfg: Config, s: System, user: User, key: Key, k: nat) returns (steps: seq<Step>, s': System)
    requires k <= |s.callers|
    requires forall c :: 0 <= c < |s.callers| ==> s.callers[c] == if c < k then Timed(user, key, -cfg.window) else Passed(user, key)
    ensures Leads(cfg, s, steps, s') && s' == s.(callers := s'.callers) && |s'.callers| == |s.callers|
    ensures forall c :: 0 <= c < |s'.callers| ==> s'.callers[c] == Timed(user, key, -cfg.window)
    decreases |s.callers| - k
  {
    if k == |s.callers| {
      steps, s' := [], s;
    } else {
      var step := ReadClock(k, 0);
      steps, s' := AllReadClock(cfg, Apply(cfg, s, step), user, key, k + 1);
      steps := [step] + steps;
    }
  }

  lemma {:induction false} AllReadHistory(cfg: Config, s: System, user: User, key: Key, k: nat) returns (steps: seq<Step>, s': System)
    requires k <= |s.callers| && Counted(s, key, -cfg.window) >= cfg.required
    requires forall c :: 0 <= c < |s.callers| ==> s.callers[c] == if c < k then Granting(user) else Timed(user, key, -cfg.window)
    ensures Leads(cfg, s, steps, s') && s' == s.(callers := s'.callers) && |s'.callers| == |s.callers|
    ensures forall c :: 0 <= c < |s'.callers| ==> s'.callers[c] == Granting(user)
    decreases |s.callers| - k
  {
    if k == |s.callers| {
      steps, s' := [], s;
    } else {
      var step := ReadHistory(k);
      steps, s' := AllReadHistory(cfg, Apply(cfg, s, step), user, key, k + 1);
      steps := [step] + steps;
    }
  }

  lemma {:induction false} AllCharged(cfg: Config, s: System, user: User, k: nat) returns (steps: seq<Step>, s': System)
    requires k <= |s.callers|
    requires forall c :: 0 <= c < |s.callers| ==> s.callers[c] == if c < k then Idle else Granting(user)
    ensures Leads(cfg, s, steps, s') && Charged(s'.a, user) == Charged(s.a, user) + |s.callers| - k
    decreases |s.callers| - k
  {
    if k == |s.callers| {
      steps, s' := [], s;
    } else {
      var step := Grant(k);
      steps, s' := AllCharged(cfg, Apply(cfg, s, step), user, k + 1);
      steps := [step] + steps;
    }
  }

  // From one approval below the cap, n callers that all enter before any of them is charged.
  lemma AllAtOnce(cfg: Config, s: System, user: User, key: Key) returns (steps: seq<Step>, s': System)
    requires Charged(s.a, user) == cfg.maxAuto - 1 && forall c :: 0 <= c < |s.callers| ==> s.callers[c].Idle?
    requires Counted(s, key, -cfg.window) >= cfg.required
    ensures Leads(cfg, s, steps, s') && Charged(s'.a, user) == cfg.maxAuto + |s.callers| - 1
  {
    hide Leads;
    var entering, s1 := AllEnter(cfg, s, user, key, 0);
    var timing, s2 := AllReadClock(cfg, s1, user, key, 0);
    var counting, s3 := AllReadHistory(cfg, s2, user, key, 0);
    var charging, s4 := AllCharged(cfg, s3, user, 0);
    LeadsConcat(cfg, s, entering, s1, timing, s2);
    LeadsConcat(cfg, s, entering + timing, s2, counting, s3);
    LeadsConcat(cfg, s, entering + timing + counting, s3, charging, s4);
    steps, s' := entering + timing + counting + charging, s4;
  }

  lemma RecordOne(cfg: Config, s: System, key: Key)
    requires ConfigOk(cfg) && s.clock == 0
    ensures Counted(Apply(cfg, s, RecordManual(key, 0, 0)), key, -cfg.window) == Counted(s, key, -cfg.window) + 1
  {
    var times, w := Approvals(s.a.history, key), cfg.window;
    assert Recent([0], -w) == 1;
    hide Recent;
    hide After;
    PruningRaisesCutoff(times + [0], -w, -w);
    RecentConcat(times, [0], -w);
  }

  // k manual approvals at time zero.
  lemma {:induction false} RecordMany(cfg: Config, s: System, key: Key, k: nat) returns (steps: seq<Step>, s': System)
    requires ConfigOk(cfg) && s.clock == 0
    ensures Leads(cfg, s, steps, s') && s'.callers == s.callers && s'.a.counters == s.a.counters
    ensures Counted(s', key, -cfg.window) == Counted(s, key, -cfg.window) + k
    decreases k
  {
    if k == 0 {
      steps, s' := [], s;
    } else {
      var step := RecordManual(key, 0, 0);
      var s1 := Apply(cfg, s, step);
      RecordOne(cfg, s, key);
      hide Recent;
      hide After;
      steps, s' := RecordMany(cfg, s1, key, k - 1);
      steps := [step] + steps;
    }
  }

  // The first caller alone is approved once.
  lemma OneApproval(cfg: Config, s: System, user: User, key: Key) returns (steps: seq<Step>, s': System)
    requires |s.callers| > 0 && s.callers[0].Idle? && Charged(s.a, user) < cfg.maxAuto
    requires Counted(s, key, -cfg.window) >= cfg.required
    ensures Leads(cfg, s, steps, s') && s'.callers == s.callers && s'.a == Charge(s.a, user)
  {
    hide Recent;
    var enter, clock, read, grant := Enter(0, user, key, s.a.hourSlot), ReadClock(0, 0), ReadHistory(0), Grant(0);
    var s1 := Apply(cfg, s, enter);
    assert s1 == s.(callers := s.callers[0 := Passed(user, key)]);
    var s2 := Apply(cfg, s1, clock);
    assert s2 == s.(callers := s.callers[0 := Timed(user, key, -cfg.window)]);
    var s3 := Apply(cfg, s2, read);
    assert s3 == s.(callers := s.callers[0 := Granting(user)]);
    s' := Apply(cfg, s3, grant);
    assert s'.callers == s.callers;
    steps := [enter, clock, read, grant];
    assert steps[1..] == [clock, read, grant] && steps[1..][1..] == [read, grant] && steps[1..][1..][1..] == [grant];
    assert Leads(cfg, s', [], s');
    assert Leads(cfg, s3, [grant], s');
    assert Leads(cfg, s2, [read, grant], s');
    assert Leads(cfg, s1, [clock, read, grant], s');
  }

  lemma {:induction false} ManyApprovals(cfg: Config, s: System, user: User, key: Key, k: nat) returns (steps: seq<Step>, s': System)
    requires |s.callers| > 0 && s.callers[0].Idle? && Charged(s.a, user) + k <= cfg.maxAuto
    requires Counted(s, key, -cfg.window) >= cfg.required
    ensures Leads(cfg, s, steps, s') && s'.callers == s.callers && s'.a.history == s.a.history
    ensures Charged(s'.a, user) == Charged(s.a, user) + k
    decreases k
  {
    if k == 0 {
      steps, s' := [], s;
    } else {
      hide Leads;
      var first, s1 := OneApproval(cfg, s, user, key);
      var rest, s2 := ManyApprovals(cfg, s1, user, key, k - 1);
      LeadsConcat(cfg, s, first, s1, rest, s2);
      steps, s' := first + rest, s2;
    }
  }

  /** The bound of `CapHolds` is exact: for every configuration and every n there is a run from a
      fresh approver in which the counter goes to cap + n - 1. */
  lemma BoundIsReached(cfg: Config, n: nat, user: User, key: Key) returns (states: seq<System>, steps: seq<Step>)
    requires ConfigOk(cfg) && n > 0
    ensures IsRun(cfg, states, steps) && |states[0].callers| == n
    ensures Charged(states[|steps|].a, user) == cfg.maxAuto + n - 1
  {
    var s0 := System(Approver(map[], map[], 0), seq(n, _ => Idle), map[], map[], 0);
    var recording, s1 := RecordMany(cfg, s0, key, cfg.required);
    var alone, s2 := ManyApprovals(cfg, s1, user, key, cfg.maxAuto - 1);
    var together, s3 := AllAtOnce(cfg, s2, user, key);
    hide Leads;
    LeadsConcat(cfg, s0, recording, s1, alone, s2);
    LeadsConcat(cfg, s0, recording + alone, s2, together, s3);
    assert IsRun(cfg, [s0], []);
    states := LeadsOn(cfg, [s0], [], recording + alone + together, s3);
    steps := [] + (recording + alone + together);
  }

  // ---------- A pruning in between ----------

  lemma SmallHistories()
    ensures After([10], -90) == [10] && After([10, 112], 12) == [112]
    ensures Recent([112], 9) == 1 && Recent([10, 112], 9) == 2
  {
    assert [10, 112][1..] == [112];
    assert After([112], 12) == [112];
    assert Recent([112], 9) == 1;
  }

  // An approver whose history and log hold these times under one key, and one caller.
  function Small(kept: seq<int>, full: seq<int>, pruned: int, clock: int, caller: Caller): System {
    System(Approver(map["k" := kept], map[], 0), [caller], map["k" := full], map["k" := pruned], clock)
  }

  lemma SmallSteps(cfg: Config)
    requires cfg == Config(1, 2, 100)
    ensures var s := System(Approver(map[], map[], 0), [Idle], map[], map[], 0);
      Enabled(s, RecordManual("k", 10, 10)) && Apply(cfg, s, RecordManual("k", 10, 10)) == Small([10], [10], -90, 10, Idle)
    ensures var s := Small([10], [10], -90, 10, Timed("u", "k", 9));
      Enabled(s, RecordManual("k", 112, 112)) && Apply(cfg, s, RecordManual("k", 112, 112)) == Small([112], [10, 112], 12, 112, Timed("u", "k", 9))
  {
    SmallHistories();
    hide Recent;
    hide After;
    assert [] + [10] == [10] && [10] + [112] == [10, 112];
  }

  lemma SmallCaller(cfg: Config, s: System)
    requires cfg == Config(1, 2, 100) && s == Small([10], [10], -90, 10, Idle)
    ensures Enabled(s, Enter(0, "u", "k", 0)) && Apply(cfg, s, Enter(0, "u", "k", 0)) == s.(callers := [Passed("u", "k")])
    ensures var s1 := s.(callers := [Passed("u", "k")]);
      Enabled(s1, ReadClock(0, 109)) && Apply(cfg, s1, ReadClock(0, 109)) == s.(callers := [Timed("u", "k", 9)])
  {
  }

  /** A caller that fixed its cutoff before a pruning and reads after it: the approval at time 10
      is inside its window and no longer in the history, and it is refused what the full log
      would grant. */
  lemma PruningInBetween(cfg: Config) returns (states: seq<System>, steps: seq<Step>)
    requires cfg == Config(1, 2, 100)
    ensures IsRun(cfg, states, steps) && |steps| == 5
    ensures states[4].callers == [Timed("u", "k", 9)] && steps[4] == ReadHistory(0)
    ensures Counted(states[4], "k", 9) == 1 && Recent(Approvals(states[4].log, "k"), 9) == 2
    ensures states[5].callers == [Idle]
  {
    steps := [RecordManual("k", 10, 10), Enter(0, "u", "k", 0), ReadClock(0, 109), RecordManual("k", 112, 112), ReadHistory(0)];
    var s0 := System(Approver(map[], map[], 0), [Idle], map[], map[], 0);
    var s1 := Small([10], [10], -90, 10, Idle);
    var s4 := Small([112], [10, 112], 12, 112, Timed("u", "k", 9));
    SmallSteps(cfg);
    SmallCaller(cfg, s1);
    SmallHistories();
    hide Recent;
    var s5 := Apply(cfg, s4, steps[4]);
    assert s5.callers == [Idle];
    hide Apply;
    states := [s0, s1, s1.(callers := [Passed("u", "k")]), s1.(callers := [Timed("u", "k", 9)]), s4, s5];
  }

  // ---------- The code ----------

  class AutoApprover {
    const cfg: Config
    const enabled: bool
    const allowedTools: seq<string>
    var a: Approver

    constructor (enabled: bool, allowedTools: seq<string>, maxAuto: int, required: int, windowHours: int)
      ensures ConfigOk(cfg) && this.enabled == enabled && this.allowedTools == allowedTools
      ensures a.history == map[] && a.counters == map[]
      ensures cfg.maxAuto == (if maxAuto > 0 then maxAuto else 10) && cfg.required == (if required > 0 then required else 3)
      ensures cfg.window == (if windowHours > 0 then windowHours else 24) * 3600
    {
      this.enabled, this.allowedTools := enabled, allowedTools;
      cfg := Config(if maxAuto <= 0 then 10 else maxAuto, if required <= 0 then 3 else required,
                    if windowHours <= 0 then 24 * 3600 else windowHours * 3600);
      a := Approver(map[], map[], 0);
    }

    // The lock section that checks the cap.
    method EnterSection(user: User, hour: int) returns (passed: bool)
      modifies this
      ensures (a, passed) == CheckCap(cfg, old(a), user, hour)
    {
      if hour != a.hourSlot {
        a := a.(counters := map[], hourSlot := hour);
      }
      passed := Charged(a, user) < cfg.maxAuto;
    }

    method CountRecent(key: Key, now: int) returns (recent: nat)
      ensures recent == Recent(Approvals(a.history, key), now - cfg.window)
    {
      var times := Approvals(a.history, key);
      recent := 0;
      for i := 0 to |times|
        invariant recent + Recent(times[i..], now - cfg.window) == Recent(times, now - cfg.window)
      {
        if times[i] > now - cfg.window {
          recent := recent + 1;
        }
      }
    }

    // The lock section that charges the counter.
    method ChargeSection(user: User)
      modifies this
      ensures a == Charge(old(a), user)
    {
      a := a.(counters := a.counters[user := Charged(a, user) + 1]);
    }

    /** ShouldAutoApprove when no other caller interleaves: it approves exactly when the tool is
        allowed, the cap is not reached and enough manual approvals are recent, and it then
        charges exactly one approval. */
    method ShouldAutoApprove(user: User, tool: string, key: Key, hour: int, now: int) returns (approved: bool)
      requires ConfigOk(cfg)
      modifies this
      ensures var charged := if user in old(a).counters && hour == old(a).hourSlot then old(a).counters[user] else 0;
        var times := if key in old(a).history then old(a).history[key] else [];
        approved <==> enabled && tool in allowedTools && charged < cfg.maxAuto && Recent(times, now - cfg.window) >= cfg.required
      ensures !(enabled && tool in allowedTools) ==> a == old(a)
      ensures enabled && tool in allowedTools ==> a.hourSlot == hour && a.history == old(a).history
      ensures enabled && tool in allowedTools && hour != old(a).hourSlot ==>
        a.counters == if approved then map[user := 1] else map[]
      ensures enabled && tool in allowedTools && hour == old(a).hourSlot ==>
        var charged := if user in old(a).counters then old(a).counters[user] else 0;
        a.counters == if approved then old(a).counters[user := charged + 1] else old(a).counters
    {
      if !enabled || tool !in allowedTools {
        return false;
      }
      var passed := EnterSection(user, hour);
      if !passed {
        return false;
      }
      var recent := CountRecent(key, now);
      if recent >= cfg.required {
        ChargeSection(user);
        return true;
      }
      return false;
    }

    method RecordManualApproval(key: Key, now: int, later: int)
      modifies this
      ensures a == Record(cfg, old(a), key, now, later)
      ensures a.counters == old(a).counters && a.hourSlot == old(a).hourSlot
      ensures var times := if key in old(a).history then old(a).history[key] else [];
        a.history == old(a).history[key := After(times + [now], later - cfg.window)]
    {
      var entries := Approvals(a.history, key) + [now];
      var cutoff := later - cfg.window;
      var pruned: seq<int> := [];
      hide After;
      for i := 0 to |entries|
        invariant pruned + After(entries[i..], cutoff) == After(entries, cutoff)
        invariant a == old(a)
      {
        AfterStep(entries, i, cutoff);
        if entries[i] > cutoff {
          pruned := pruned + [entries[i]];
        }
      }
      AfterNothing(entries[|entries|..], cutoff);
      assert pruned == After(entries, cutoff);
      a := a.(history := a.history[key := pruned]);
    }
  }
}
