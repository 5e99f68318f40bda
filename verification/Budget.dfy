/** Per-user budgets with reservations. A tool execution reserves its estimated cost, records it
    as spent, and releases the reservation when it returns. */
module Budget {

  import opened Types

  datatype Account = Account(limit: real, spent: real, reserved: real)

  function Remaining(a: Account): real {
    a.limit - a.spent - a.reserved
  }

  function Reserved(a: Account, cost: real): Account {
    a.(reserved := a.reserved + cost)
  }

  function Released(a: Account, cost: real): Account {
    a.(reserved := a.reserved - cost)
  }

  // The reservation is taken to be at least the cost; when it is not, it drops to zero.
  function Recorded(a: Account, cost: real): Account {
    a.(spent := a.spent + cost, reserved := if a.reserved >= cost then a.reserved - cost else 0.0)
  }

  // ---------- Concurrent executions on one account ----------

  // `Abandoned` is a release that no record came before.
  datatype Phase = Holding | Paid | Settled | Abandoned

  datatype Execution = Execution(cost: real, phase: Phase)

  /** `peak` is history: the largest total cost of executions in flight at any record. */
  datatype Ledger = Ledger(account: Account, executions: seq<Execution>, peak: real)

  // One lock section each. Releasing a second time does nothing.
  datatype Event = Reserve(cost: real) | Record(i: nat) | Release(i: nat)

  // What the executions in one of these phases cost together.
  function Total(es: seq<Execution>, phases: set<Phase>): real
    decreases |es|
  {
    if es == [] then 0.0
    else Total(es[..|es| - 1], phases) + (if es[|es| - 1].phase in phases then es[|es| - 1].cost else 0.0)
  }

  function InFlight(es: seq<Execution>): real {
    Total(es, {Holding, Paid})
  }

  // A reservation is refused exactly when it does not fit; each execution records at most once.
  predicate Enabled(l: Ledger, e: Event) {
    match e
    case Reserve(cost) => cost <= Remaining(l.account)
    case Record(i) => i < |l.executions| && l.executions[i].phase == Holding
    case Release(i) => i < |l.executions|
  }

  function Apply(l: Ledger, e: Event): Ledger
    requires Enabled(l, e)
  {
    match e
    case Reserve(cost) =>
      l.(account := Reserved(l.account, cost), executions := l.executions + [Execution(cost, Holding)])
    case Record(i) =>
      var total := InFlight(l.executions);
      Ledger(Recorded(l.account, l.executions[i].cost),
             l.executions[i := l.executions[i].(phase := Paid)],
             if total > l.peak then total else l.peak)
    case Release(i) =>
      var x := l.executions[i];
      if x.phase == Settled || x.phase == Abandoned then l
      else l.(account := Released(l.account, x.cost),
              executions := l.executions[i := x.(phase := if x.phase == Paid then Settled else Abandoned)])
  }

  ghost predicate IsRun(states: seq<Ledger>, events: seq<Event>) {
    && |states| == |events| + 1
    && states[0].executions == [] && states[0].account.reserved == 0.0 && states[0].peak == 0.0
    && forall i :: 0 <= i < |events| ==> Enabled(states[i], events[i]) && states[i + 1] == Apply(states[i], events[i])
  }

  ghost predicate NonNegative(events: seq<Event>) {
    forall i :: 0 <= i < |events| && events[i].Reserve? ==> events[i].cost >= 0.0
  }

  ghost predicate NoRecords(events: seq<Event>) {
    forall i :: 0 <= i < |events| ==> !events[i].Record?
  }

  function Max(x: real, y: real): real {
    if x >= y then x else y
  }

  // ---------- Totals ----------

  lemma TotalOfAppend(es: seq<Execution>, x: Execution, phases: set<Phase>)
    ensures Total(es + [x], phases) == Total(es, phases) + (if x.phase in phases then x.cost else 0.0)
  {
    assert (es + [x])[..|es|] == es;
  }

  function Share(x: Execution, phases: set<Phase>): real {
    if x.phase in phases then x.cost else 0.0
  }

  lemma {:induction false} TotalOfUpdate(es: seq<Execution>, i: nat, x: Execution, phases: set<Phase>)
    requires i < |es|
    ensures Total(es[i := x], phases) == Total(es, phases) - Share(es[i], phases) + Share(x, phases)
    decreases |es|
  {
    var n := |es| - 1;
    if i < n {
      assert es[i := x][..n] == es[..n][i := x];
      TotalOfUpdate(es[..n], i, x, phases);
    } else {
      assert es[i := x][..n] == es[..n];
    }
  }

  lemma {:induction false} TotalOfUnion(es: seq<Execution>, a: set<Phase>, b: set<Phase>)
    requires a !! b
    ensures Total(es, a + b) == Total(es, a) + Total(es, b)
    decreases |es|
  {
    if es != [] {
      TotalOfUnion(es[..|es| - 1], a, b);
    }
  }

  lemma {:induction false} TotalNonNegative(es: seq<Execution>, phases: set<Phase>)
    requires forall k :: 0 <= k < |es| ==> es[k].cost >= 0.0
    ensures Total(es, phases) >= 0.0
    decreases |es|
  {
    if es != [] {
      TotalNonNegative(es[..|es| - 1], phases);
    }
  }

  // ---------- Reserving and releasing only ----------

  ghost predicate OnlyHeld(l: Ledger, start: Account) {
    && (forall k :: 0 <= k < |l.executions| ==> l.executions[k].phase in {Holding, Abandoned})
    && l.account.reserved == Total(l.executions, {Holding})
    && l.account.spent == start.spent && l.account.limit == start.limit
  }

  lemma {:induction false} OnlyHeldKept(l: Ledger, e: Event, start: Account)
    requires OnlyHeld(l, start) && Enabled(l, e) && !e.Record?
    ensures OnlyHeld(Apply(l, e), start)
  {
    match e
    case Reserve(cost) => TotalOfAppend(l.executions, Execution(cost, Holding), {Holding});
    case Release(i) => TotalOfUpdate(l.executions, i, l.executions[i].(phase := Abandoned), {Holding});
    case Record(i) =>
  }

  /** As long as nothing is recorded, what is reserved is the sum of the reservations not yet
      released, whatever the costs; */
  lemma {:induction false} ReservedIsOutstanding(states: seq<Ledger>, events: seq<Event>, i: nat)
    requires IsRun(states, events) && NoRecords(events) && i < |states|
    ensures OnlyHeld(states[i], states[0].account)
  {
    if i > 0 {
      ReservedIsOutstanding(states, events, i - 1);
      assert Enabled(states[i - 1], events[i - 1]) && states[i - 1 + 1] == Apply(states[i - 1], events[i - 1]);
      OnlyHeldKept(states[i - 1], events[i - 1], states[0].account);
    }
  }

  // and with costs that are not negative nothing is ever promised beyond the limit.
  lemma {:induction false} ReservationsFit(states: seq<Ledger>, events: seq<Event>, i: nat)
    requires IsRun(states, events) && NoRecords(events) && NonNegative(events) && i < |states|
    ensures states[i].account.spent + states[i].account.reserved <= Max(states[0].account.limit, states[0].account.spent)
  {
    if i > 0 {
      ReservationsFit(states, events, i - 1);
      CostsNonNegative(states, events, i - 1);
      ReservedIsOutstanding(states, events, i - 1);
      var e := events[i - 1];
      assert Enabled(states[i - 1], e) && states[i - 1 + 1] == Apply(states[i - 1], e);
      if e.Reserve? {
        assert e.cost >= 0.0;
      }
    }
  }

  lemma {:induction false} CostsNonNegative(states: seq<Ledger>, events: seq<Event>, i: nat)
    requires IsRun(states, events) && NonNegative(events) && i < |states|
    ensures forall k :: 0 <= k < |states[i].executions| ==> states[i].executions[k].cost >= 0.0
  {
    if i > 0 {
      CostsNonNegative(states, events, i - 1);
      assert Enabled(states[i - 1], events[i - 1]) && states[i - 1 + 1] == Apply(states[i - 1], events[i - 1]);
    }
  }

  /** For every account within its limit and every negative estimate some run promises more than
      the limit: the estimate makes room, the room is reserved, and the release takes it away. */
  lemma NegativeCostBreaksLimit(start: Account, x: real) returns (states: seq<Ledger>, events: seq<Event>)
    requires start.reserved == 0.0 && start.spent <= start.limit && x < 0.0
    ensures IsRun(states, events) && NoRecords(events) && states[0].account == start && |events| == 3 && events[0] == Reserve(x)
    ensures forall i :: 1 <= i < |events| && events[i].Reserve? ==> events[i].cost >= 0.0
    ensures var a := states[|events|].account; a.spent + a.reserved == start.limit - x > Max(start.limit, start.spent)
  {
    var fits := start.limit - start.spent - x;
    var l0 := Ledger(start, [], 0.0);
    var l1 := Ledger(start.(reserved := x), [Execution(x, Holding)], 0.0);
    var l2 := Ledger(start.(reserved := x + fits), [Execution(x, Holding), Execution(fits, Holding)], 0.0);
    assert [] + [Execution(x, Holding)] == l1.executions;
    assert l1.executions + [Execution(fits, Holding)] == l2.executions;
    hide Total;
    events := [Reserve(x), Reserve(fits), Release(0)];
    states := [l0, l1, l2, Apply(l2, Release(0))];
  }

  // ---------- With recording ----------

  /** A record and the release after it both take the same reservation away, so `reserved` can
      fall below what is held, by up to the total that was in flight at some record. */
  ghost predicate Inv(l: Ledger, start: Account) {
    && l.peak >= 0.0
    && l.account.limit == start.limit
    && InFlight(l.executions) - l.account.reserved <= l.peak
    && l.account.spent + Total(l.executions, {Holding}) <= Max(start.limit, start.spent) + l.peak
    && forall k :: 0 <= k < |l.executions| ==> l.executions[k].cost >= 0.0
  }

  lemma InFlightSplits(es: seq<Execution>)
    ensures InFlight(es) == Total(es, {Holding}) + Total(es, {Paid})
  {
    assert {Holding} + {Paid} == {Holding, Paid};
    TotalOfUnion(es, {Holding}, {Paid});
  }

  lemma ReserveKeepsInv(l: Ledger, cost: real, start: Account)
    requires Inv(l, start) && Enabled(l, Reserve(cost)) && cost >= 0.0
    ensures Inv(Apply(l, Reserve(cost)), start)
  {
    var x := Execution(cost, Holding);
    TotalOfAppend(l.executions, x, {Holding});
    TotalOfAppend(l.executions, x, {Holding, Paid});
    InFlightSplits(l.executions);
    TotalNonNegative(l.executions, {Paid});
    hide Total;
  }

  lemma RecordKeepsInv(l: Ledger, i: nat, start: Account)
    requires Inv(l, start) && Enabled(l, Record(i))
    ensures Inv(Apply(l, Record(i)), start)
  {
    var x := l.executions[i].(phase := Paid);
    TotalOfUpdate(l.executions, i, x, {Holding});
    TotalOfUpdate(l.executions, i, x, {Holding, Paid});
    hide Total;
  }

  lemma ReleaseKeepsInv(l: Ledger, i: nat, start: Account)
    requires Inv(l, start) && Enabled(l, Release(i))
    ensures Inv(Apply(l, Release(i)), start)
  {
    var x := l.executions[i].(phase := if l.executions[i].phase == Paid then Settled else Abandoned);
    TotalOfUpdate(l.executions, i, x, {Holding});
    TotalOfUpdate(l.executions, i, x, {Holding, Paid});
    hide Total;
  }

  lemma {:induction false} RunKeepsInv(states: seq<Ledger>, events: seq<Event>, i: nat)
    requires IsRun(states, events) && NonNegative(events) && i < |states|
    ensures Inv(states[i], states[0].account)
  {
    if i > 0 {
      RunKeepsInv(states, events, i - 1);
      var e := events[i - 1];
      assert Enabled(states[i - 1], e) && states[i - 1 + 1] == Apply(states[i - 1], e);
      match e
      case Reserve(cost) => ReserveKeepsInv(states[i - 1], cost, states[0].account);
      case Record(k) => RecordKeepsInv(states[i - 1], k, states[0].account);
      case Release(k) => ReleaseKeepsInv(states[i - 1], k, states[0].account);
    }
  }

  // ---------- The bound for n callers ----------

  function Active(es: seq<Execution>): nat
    decreases |es|
  {
    if es == [] then 0
    else Active(es[..|es| - 1]) + (if es[|es| - 1].phase in {Holding, Paid} then 1 else 0)
  }

  ghost predicate FewAndSmall(es: seq<Execution>, n: nat, most: real) {
    Active(es) <= n && forall k :: 0 <= k < |es| ==> es[k].cost <= most
  }

  ghost predicate Callers(states: seq<Ledger>, n: nat, most: real) {
    forall i :: 0 <= i < |states| ==> FewAndSmall(states[i].executions, n, most)
  }

  lemma {:induction false} FlightIsBounded(es: seq<Execution>, most: real)
    requires forall k :: 0 <= k < |es| ==> es[k].cost <= most
    ensures InFlight(es) <= Active(es) as real * most
    decreases |es|
  {
    if es != [] {
      FlightIsBounded(es[..|es| - 1], most);
    }
  }

  lemma TimesGrows(a: nat, n: nat, most: real)
    requires a <= n && most >= 0.0
    ensures a as real * most <= n as real * most
  {
  }

  lemma FlightWithin(es: seq<Execution>, n: nat, most: real)
    requires FewAndSmall(es, n, most) && most >= 0.0
    ensures InFlight(es) <= n as real * most
  {
    FlightIsBounded(es, most);
    var a := Active(es);
    hide *;
    TimesGrows(a, n, most);
    assert InFlight(es) <= a as real * most;
  }

  lemma StepOf(states: seq<Ledger>, events: seq<Event>, i: nat)
    requires IsRun(states, events) && i < |events|
    ensures Enabled(states[i], events[i]) && states[i + 1] == Apply(states[i], events[i])
  {
  }

  lemma PeakStep(l: Ledger, e: Event)
    requires Enabled(l, e)
    ensures Apply(l, e).peak == l.peak || Apply(l, e).peak == InFlight(l.executions)
  {
    hide Total;
  }

  // The peak is within whatever bounds the total in flight at all times.
  lemma {:induction false} PeakUnder(states: seq<Ledger>, events: seq<Event>, bound: real, i: nat)
    requires IsRun(states, events) && i < |states| && bound >= 0.0
    requires forall k :: 0 <= k < |states| ==> InFlight(states[k].executions) <= bound
    ensures states[i].peak <= bound
  {
    if i > 0 {
      PeakUnder(states, events, bound, i - 1);
      StepOf(states, events, i - 1);
      PeakStep(states[i - 1], events[i - 1]);
      hide Apply;
      hide Total;
    }
  }

  lemma PeakIsBounded(states: seq<Ledger>, events: seq<Event>, n: nat, most: real, i: nat)
    requires IsRun(states, events) && Callers(states, n, most) && most >= 0.0 && i < |states|
    ensures states[i].peak <= n as real * most
  {
    hide IsRun;
    forall k | 0 <= k < |states| ensures InFlight(states[k].executions) <= n as real * most {
      assert FewAndSmall(states[k].executions, n, most);
      FlightWithin(states[k].executions, n, most);
    }
    TimesGrows(0, n, most);
    PeakUnder(states, events, n as real * most, i);
  }

  /** With n concurrent callers and costs between zero and `most`, what is spent and still held
      stays within the limit plus n times `most`, in every interleaving of their lock sections. */
  lemma OvershootIsBounded(states: seq<Ledger>, events: seq<Event>, n: nat, most: real, i: nat)
    requires IsRun(states, events) && NonNegative(events) && Callers(states, n, most) && most >= 0.0 && i < |states|
    ensures states[i].account.spent + Total(states[i].executions, {Holding})
              <= Max(states[0].account.limit, states[0].account.spent) + n as real * most
  {
    RunKeepsInv(states, events, i);
    PeakIsBounded(states, events, n, most, i);
  }

  // ---------- The bound is reached ----------

  ghost predicate GoodRun(states: seq<Ledger>, events: seq<Event>, n: nat, most: real) {
    |states| > 0 && IsRun(states, events) && NonNegative(events) && Callers(states, n, most)
  }

  lemma Extend(states: seq<Ledger>, events: seq<Event>, n: nat, most: real, e: Event)
    requires GoodRun(states, events, n, most)
    requires var l := states[|states| - 1];
      Enabled(l, e) && (e.Reserve? ==> e.cost >= 0.0) && FewAndSmall(Apply(l, e).executions, n, most)
    ensures GoodRun(states + [Apply(states[|states| - 1], e)], events + [e], n, most)
  {
    hide Active;
    hide Total;
    var l' := Apply(states[|states| - 1], e);
    hide Apply;
    hide Enabled;
    var ss, es := states + [l'], events + [e];
    forall i | 0 <= i < |es| ensures Enabled(ss[i], es[i]) && ss[i + 1] == Apply(ss[i], es[i]) {
      if i < |events| {
        assert Enabled(states[i], events[i]) && states[i + 1] == Apply(states[i], events[i]);
      }
    }
    assert IsRun(ss, es);
    assert NonNegative(es);
    forall i | 0 <= i < |ss| ensures FewAndSmall(ss[i].executions, n, most) {
      if i < |states| {
        assert FewAndSmall(states[i].executions, n, most);
      }
    }
  }

  lemma {:induction false} ActiveAtMost(es: seq<Execution>, b: nat)
    requires b <= |es|
    requires forall k :: 0 <= k < b ==> es[k].phase !in {Holding, Paid}
    ensures Active(es) <= |es| - b
    decreases |es|
  {
    if |es| > b {
      ActiveAtMost(es[..|es| - 1], b);
    } else if es != [] {
      ActiveAtMost(es[..|es| - 1], b - 1);
    }
  }

  // The executions from b on cost c each; m of them are still in the first phase given.
  ghost predicate Lined(es: seq<Execution>, b: nat, m: nat, c: real, before: Phase, after: Phase) {
    && b <= m <= |es|
    && (forall k :: 0 <= k < b ==> es[k].phase == Settled && es[k].cost <= c)
    && (forall k :: b <= k < m ==> es[k] == Execution(c, after))
    && (forall k :: m <= k < |es| ==> es[k] == Execution(c, before))
  }

  lemma LinedIsSmall(es: seq<Execution>, b: nat, m: nat, c: real, before: Phase, after: Phase, n: nat)
    requires Lined(es, b, m, c, before, after) && |es| <= b + n
    ensures FewAndSmall(es, n, c)
  {
    ActiveAtMost(es, b);
  }

  lemma Times(k: nat, c: real)
    ensures (k + 1) as real * c == k as real * c + c
  {
  }

  lemma ReserveOnce(l: Ledger, b: nat, n: nat, c: real)
    requires Lined(l.executions, b, b, c, Holding, Paid) && |l.executions| < b + n
    requires l.account.spent + l.account.reserved + c <= l.account.limit
    ensures Enabled(l, Reserve(c)) && Lined(Apply(l, Reserve(c)).executions, b, b, c, Holding, Paid)
    ensures FewAndSmall(Apply(l, Reserve(c)).executions, n, c)
  {
    LinedIsSmall(Apply(l, Reserve(c)).executions, b, b, c, Holding, Paid, n);
  }

  /** n callers reserve c each, then all record, then all release. */
  lemma ReserveRound(states: seq<Ledger>, events: seq<Event>, n: nat, c: real, k: nat) returns (ss: seq<Ledger>, es: seq<Event>)
    requires GoodRun(states, events, n, c) && c >= 0.0 && k <= n
    requires var l := states[|states| - 1]; Lined(l.executions, |l.executions|, |l.executions|, c, Holding, Paid)
    requires var a := states[|states| - 1].account; a.spent + a.reserved + n as real * c <= a.limit
    ensures GoodRun(ss, es, n, c) && ss[0] == states[0]
    ensures var l, l' := states[|states| - 1], ss[|ss| - 1];
      && l'.account == Reserved(l.account, k as real * c)
      && |l'.executions| == |l.executions| + k
      && Lined(l'.executions, |l.executions|, |l.executions|, c, Holding, Paid)
  {
    hide IsRun;
    hide Callers;
    hide FewAndSmall;
    hide Lined;
    if k == 0 {
      ss, es := states, events;
    } else {
      var ss0, es0 := ReserveRound(states, events, n, c, k - 1);
      var l := ss0[|ss0| - 1];
      var b := |states[|states| - 1].executions|;
      Times(k - 1, c);
      TimesGrows(k, n, c);
      ReserveOnce(l, b, n, c);
      var l' := Apply(l, Reserve(c));
      Extend(ss0, es0, n, c, Reserve(c));
      ss, es := ss0 + [l'], es0 + [Reserve(c)];
    }
  }

  lemma RecordOnce(l: Ledger, b: nat, n: nat, c: real, i: nat)
    requires Lined(l.executions, b, i, c, Holding, Paid) && i < |l.executions| == b + n
    ensures Enabled(l, Record(i)) && l.executions[i].cost == c
    ensures Lined(Apply(l, Record(i)).executions, b, i + 1, c, Holding, Paid) && FewAndSmall(Apply(l, Record(i)).executions, n, c)
  {
    LinedIsSmall(Apply(l, Record(i)).executions, b, i + 1, c, Holding, Paid, n);
  }

  lemma RecordRound(states: seq<Ledger>, events: seq<Event>, n: nat, c: real, b: nat, k: nat) returns (ss: seq<Ledger>, es: seq<Event>)
    requires GoodRun(states, events, n, c) && c >= 0.0 && k <= n
    requires var l := states[|states| - 1]; Lined(l.executions, b, b, c, Holding, Paid) && |l.executions| == b + n
    requires states[|states| - 1].account.reserved <= n as real * c
    ensures GoodRun(ss, es, n, c) && ss[0] == states[0]
    ensures var l, l' := states[|states| - 1], ss[|ss| - 1];
      && l'.account.limit == l.account.limit && l'.account.spent == l.account.spent + k as real * c
      && l'.account.reserved <= (n - k) as real * c && (k > 0 ==> l'.account.reserved >= 0.0)
      && |l'.executions| == b + n && Lined(l'.executions, b, b + k, c, Holding, Paid)
  {
    hide IsRun;
    hide Callers;
    hide FewAndSmall;
    hide Lined;
    if k == 0 {
      ss, es := states, events;
    } else {
      var ss0, es0 := RecordRound(states, events, n, c, b, k - 1);
      var l := ss0[|ss0| - 1];
      Times(k - 1, c);
      Times(n - k, c);
      TimesGrows(0, n - k, c);
      RecordOnce(l, b, n, c, b + k - 1);
      var l' := Apply(l, Record(b + k - 1));
      Extend(ss0, es0, n, c, Record(b + k - 1));
      ss, es := ss0 + [l'], es0 + [Record(b + k - 1)];
    }
  }

  lemma ReleaseOnce(l: Ledger, b: nat, n: nat, c: real, i: nat)
    requires Lined(l.executions, b, i, c, Paid, Settled) && i < |l.executions| == b + n
    ensures Enabled(l, Release(i)) && l.executions[i] == Execution(c, Paid)
    ensures Lined(Apply(l, Release(i)).executions, b, i + 1, c, Paid, Settled) && FewAndSmall(Apply(l, Release(i)).executions, n, c)
  {
    LinedIsSmall(Apply(l, Release(i)).executions, b, i + 1, c, Paid, Settled, n);
  }

  lemma ReleaseRound(states: seq<Ledger>, events: seq<Event>, n: nat, c: real, b: nat, k: nat) returns (ss: seq<Ledger>, es: seq<Event>)
    requires GoodRun(states, events, n, c) && c >= 0.0 && k <= n
    requires var l := states[|states| - 1]; Lined(l.executions, b, b, c, Paid, Settled) && |l.executions| == b + n
    ensures GoodRun(ss, es, n, c) && ss[0] == states[0]
    ensures var l, l' := states[|states| - 1], ss[|ss| - 1];
      && l'.account == l.account.(reserved := l.account.reserved - k as real * c)
      && |l'.executions| == b + n && Lined(l'.executions, b, b + k, c, Paid, Settled)
  {
    hide IsRun;
    hide Callers;
    hide FewAndSmall;
    hide Lined;
    if k == 0 {
      ss, es := states, events;
    } else {
      var ss0, es0 := ReleaseRound(states, events, n, c, b, k - 1);
      var l := ss0[|ss0| - 1];
      Times(k - 1, c);
      ReleaseOnce(l, b, n, c, b + k - 1);
      var l' := Apply(l, Release(b + k - 1));
      Extend(ss0, es0, n, c, Release(b + k - 1));
      ss, es := ss0 + [l'], es0 + [Release(b + k - 1)];
    }
  }

  lemma WholeRound(states: seq<Ledger>, events: seq<Event>, n: nat, c: real) returns (ss: seq<Ledger>, es: seq<Event>)
    requires GoodRun(states, events, n, c) && c >= 0.0 && n > 0
    requires var l := states[|states| - 1]; Lined(l.executions, |l.executions|, |l.executions|, c, Holding, Paid)
    requires var a := states[|states| - 1].account; a.reserved <= 0.0 && a.spent + a.reserved + n as real * c <= a.limit
    ensures GoodRun(ss, es, n, c) && ss[0] == states[0]
    ensures var a, l' := states[|states| - 1].account, ss[|ss| - 1];
      && l'.account == Account(a.limit, a.spent + n as real * c, -(n as real * c))
      && Lined(l'.executions, |l'.executions|, |l'.executions|, c, Holding, Paid)
  {
    var b := |states[|states| - 1].executions|;
    var ss1, es1 := ReserveRound(states, events, n, c, n);
    var ss2, es2 := RecordRound(ss1, es1, n, c, b, n);
    assert (n - n) as real * c == 0.0;
    ss, es := ReleaseRound(ss2, es2, n, c, b, n);
  }

  /** Two rounds of n callers on a budget of exactly one round: the account ends n times c
      beyond its limit, which is as far as `OvershootIsBounded` lets it go. */
  lemma OvershootIsReached(n: nat, c: real) returns (ss: seq<Ledger>, es: seq<Event>)
    requires n > 0 && c >= 0.0
    ensures IsRun(ss, es) && NonNegative(es) && Callers(ss, n, c)
    ensures ss[0].account == Account(n as real * c, 0.0, 0.0)
    ensures ss[|ss| - 1].account.spent == ss[0].account.limit + n as real * c
  {
    var start := Ledger(Account(n as real * c, 0.0, 0.0), [], 0.0);
    assert GoodRun([start], [], n, c);
    var ss1, es1 := WholeRound([start], [], n, c);
    ss, es := WholeRound(ss1, es1, n, c);
  }

  // ---------- One execution after another ----------

  // Reserve, record, release. A refused execution changes nothing.
  function Executed(a: Account, cost: real): Account {
    if cost > Remaining(a) then a else Released(Recorded(Reserved(a, cost), cost), cost)
  }

  function ExecutedAll(a: Account, costs: seq<real>): Account
    decreases |costs|
  {
    if costs == [] then a else Executed(ExecutedAll(a, costs[..|costs| - 1]), costs[|costs| - 1])
  }

  // The cost of the last execution that was not refused, zero when there was none.
  function LastCost(a: Account, costs: seq<real>): real
    decreases |costs|
  {
    if costs == [] then 0.0
    else
      var init, c := costs[..|costs| - 1], costs[|costs| - 1];
      if c <= Remaining(ExecutedAll(a, init)) then c else LastCost(a, init)
  }

  /** Between executions the account is exactly the last cost short of its reservations, */
  lemma {:induction false} ReservedIsMinusLast(a: Account, costs: seq<real>)
    requires a.reserved == 0.0 && forall k :: 0 <= k < |costs| ==> costs[k] >= 0.0
    ensures ExecutedAll(a, costs).reserved == -LastCost(a, costs) <= 0.0
    ensures ExecutedAll(a, costs).limit == a.limit
    decreases |costs|
  {
    if costs != [] {
      ReservedIsMinusLast(a, costs[..|costs| - 1]);
    }
  }

  /** so the next execution goes through exactly when it keeps the spending within the limit
      plus the cost of the one before it, */
  lemma NextGoesThrough(a: Account, costs: seq<real>, cost: real)
    requires a.reserved == 0.0 && (forall k :: 0 <= k < |costs| ==> costs[k] >= 0.0) && cost >= 0.0
    ensures var now := ExecutedAll(a, costs);
      Executed(now, cost).spent == (if now.spent + cost <= a.limit + LastCost(a, costs) then now.spent + cost else now.spent)
  {
    ReservedIsMinusLast(a, costs);
  }

  /** and the spending never exceeds the limit by more than the dearest single execution. */
  lemma {:induction false} SpentWithinOneMore(a: Account, costs: seq<real>, most: real)
    requires a.reserved == 0.0 && a.spent <= a.limit && 0.0 <= most
    requires forall k :: 0 <= k < |costs| ==> 0.0 <= costs[k] <= most
    ensures ExecutedAll(a, costs).spent <= a.limit + most
    ensures LastCost(a, costs) <= most
    decreases |costs|
  {
    if costs != [] {
      var init := costs[..|costs| - 1];
      SpentWithinOneMore(a, init, most);
      NextGoesThrough(a, init, costs[|costs| - 1]);
    }
  }

  // ---------- The code ----------

  // The release closure: the flag it captures makes it idempotent.
  class Reservation {
    const userID: string
    const cost: real
    var released: bool

    constructor (userID: string, cost: real)
      ensures this.userID == userID && this.cost == cost && !released
    {
      this.userID := userID;
      this.cost := cost;
      released := false;
    }
  }

  class BudgetManager {
    const defaultLimitUSD: real
    var users: map<string, Account>

    constructor (limit: real)
      ensures defaultLimitUSD == limit && users == map[]
    {
      defaultLimitUSD := limit;
      users := map[];
    }

    // A user seen for the first time has the default limit and has spent nothing.
    function AccountOf(userID: string): Account
      reads this
    {
      if userID in users then users[userID] else Account(defaultLimitUSD, 0.0, 0.0)
    }

    method GetOrCreate(userID: string) returns (ub: Account)
      modifies this
      ensures ub == old(AccountOf(userID)) && users == old(users)[userID := ub]
    {
      if userID !in users {
        users := users[userID := Account(defaultLimitUSD, 0.0, 0.0)];
      }
      ub := users[userID];
    }

    method CheckBudget(userID: string, estimatedCost: real) returns (ok: bool)
      modifies this
      ensures ok <==> estimatedCost <= Remaining(old(AccountOf(userID)))
      ensures users == old(users)[userID := old(AccountOf(userID))]
    {
      var ub := GetOrCreate(userID);
      var remaining := ub.limit - ub.spent - ub.reserved;
      ok := !(estimatedCost > remaining);
    }

    method ReserveBudget(userID: string, estimatedCost: real) returns (release: Option<Reservation>)
      modifies this
      ensures release.Some? <==> estimatedCost <= Remaining(old(AccountOf(userID)))
      ensures release.Some? ==> fresh(release.value) && !release.value.released
      ensures release.Some? ==> release.value.userID == userID && release.value.cost == estimatedCost
      ensures users == old(users)[userID := if release.Some? then Reserved(old(AccountOf(userID)), estimatedCost) else old(AccountOf(userID))]
      ensures var was := old(AccountOf(userID));
        && release.Some? == (was.spent + was.reserved + estimatedCost <= was.limit)
        && users[userID] == was.(reserved := was.reserved + if release.Some? then estimatedCost else 0.0)
    {
      var ub := GetOrCreate(userID);
      var remaining := ub.limit - ub.spent - ub.reserved;
      if estimatedCost > remaining {
        return None;
      }
      users := users[userID := ub.(reserved := ub.reserved + estimatedCost)];
      var closure := new Reservation(userID, estimatedCost);
      return Some(closure);
    }

    method Release(r: Reservation)
      requires r.userID in users
      modifies this, r
      ensures r.released
      ensures users == if old(r.released) then old(users)
                       else old(users)[r.userID := Released(old(users)[r.userID], r.cost)]
      ensures users[r.userID].reserved == old(users)[r.userID].reserved - (if old(r.released) then 0.0 else r.cost)
      ensures users[r.userID].limit == old(users)[r.userID].limit && users[r.userID].spent == old(users)[r.userID].spent
    {
      if !r.released {
        var ub := users[r.userID];
        users := users[r.userID := ub.(reserved := ub.reserved - r.cost)];
        r.released := true;
      }
    }

    method RecordCost(userID: string, actualCost: real)
      modifies this
      ensures users == old(users)[userID := Recorded(old(AccountOf(userID)), actualCost)]
      ensures var was := old(AccountOf(userID));
        && users[userID].spent == was.spent + actualCost && users[userID].limit == was.limit
        && users[userID].reserved == if was.reserved < actualCost then 0.0 else was.reserved - actualCost
    {
      var ub := GetOrCreate(userID);
      ub := ub.(spent := ub.spent + actualCost);
      if ub.reserved >= actualCost {
        ub := ub.(reserved := ub.reserved - actualCost);
      } else {
        ub := ub.(reserved := 0.0);
      }
      users := users[userID := ub];
    }

    /** The tool runs between the reservation and the record; its cost is recorded whether it
        fails or not, and the deferred release comes last. */
    method ExecuteWithAudit(userID: string, estimatedCost: real) returns (ran: bool)
      modifies this
      ensures ran <==> estimatedCost <= Remaining(old(AccountOf(userID)))
      ensures users == old(users)[userID := Executed(old(AccountOf(userID)), estimatedCost)]
      ensures var was := old(AccountOf(userID));
        var held := was.reserved + estimatedCost;
        && ran == (was.spent + held <= was.limit)
        && users[userID] ==
             if ran then Account(was.limit, was.spent + estimatedCost, (if held < estimatedCost then 0.0 else was.reserved) - estimatedCost)
             else was
    {
      var release := ReserveBudget(userID, estimatedCost);
      if release.None? {
        return false;
      }
      RecordCost(userID, estimatedCost);
      Release(release.value);
      return true;
    }
  }
}
