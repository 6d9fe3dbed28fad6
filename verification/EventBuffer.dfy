/** The agent's buffer of rule events, with reporters that take batches and may put them back. */
module EventBuffer {

  import opened Sequences

  const LIMIT: nat := 1000

  /** Every event ever collected is in one of the other four places. `inFlight` has one batch a reporter. */
  datatype State<E> = State(pending: seq<E>, inFlight: seq<seq<E>>, reported: seq<E>, lost: seq<E>, collected: seq<E>)

  /** The critical sections of the collector and of the reporters, as they take the lock. */
  datatype Step<E> = Collect(event: E) | Take | Deliver(batch: nat) | PutBack(batch: nat) | Abandon(batch: nat)

  function Trimmed<E>(events: seq<E>): nat {
    if |events| > LIMIT then |events| - LIMIT else 0
  }

  function Without<E>(batches: seq<seq<E>>, i: nat): seq<seq<E>>
    requires i < |batches|
  {
    batches[..i] + batches[i + 1..]
  }

  predicate Enabled<E(==)>(s: State<E>, step: Step<E>) {
    match step
    case Collect(_) => true
    case Take => s.pending != []
    case Deliver(i) => i < |s.inFlight|
    case PutBack(i) => i < |s.inFlight|
    case Abandon(i) => i < |s.inFlight|
  }

  function Apply<E(==)>(s: State<E>, step: Step<E>): State<E>
    requires Enabled(s, step)
  {
    match step
    case Collect(e) =>
      var all, cut := s.pending + [e], Trimmed(s.pending + [e]);
      s.(pending := all[cut..], lost := s.lost + all[..cut], collected := s.collected + [e])
    case Take => s.(pending := [], inFlight := s.inFlight + [s.pending])
    case Deliver(i) => s.(inFlight := Without(s.inFlight, i), reported := s.reported + s.inFlight[i])
    case PutBack(i) => s.(inFlight := Without(s.inFlight, i), pending := s.inFlight[i] + s.pending)
    case Abandon(i) => s.(inFlight := Without(s.inFlight, i), lost := s.lost + s.inFlight[i])
  }

  /** Every step of the run can be taken. */
  predicate Runs<E(==)>(steps: seq<Step<E>>) {
    steps == [] ||
    (Runs(steps[..|steps| - 1]) && Enabled(After(steps[..|steps| - 1]), steps[|steps| - 1]))
  }

  function After<E(==)>(steps: seq<Step<E>>): State<E> {
    if steps == [] then State([], [], [], [], [])
    else
      var s, step := After(steps[..|steps| - 1]), steps[|steps| - 1];
      if Enabled(s, step) then Apply(s, step) else s
  }

  // ---------------------------------------------------------------------------
  // No event disappears, and none appears twice.
  // ---------------------------------------------------------------------------

  function Flat<E>(batches: seq<seq<E>>): seq<E> {
    if batches == [] then [] else Flat(batches[..|batches| - 1]) + batches[|batches| - 1]
  }

  lemma {:induction false} FlatAppend<E>(a: seq<seq<E>>, batch: seq<E>)
    ensures Flat(a + [batch]) == Flat(a) + batch
  {
    assert (a + [batch])[..|a|] == a;
  }

  lemma {:induction false} Associative<T>(a: seq<T>, b: seq<T>, c: seq<T>)
    ensures a + (b + c) == a + b + c
  {
  }

  lemma {:induction false} SplitLast<T>(s: seq<T>)
    requires s != []
    ensures s == s[..|s| - 1] + [s[|s| - 1]]
  {
  }

  lemma {:induction false} FlatConcat<E>(a: seq<seq<E>>, b: seq<seq<E>>)
    ensures Flat(a + b) == Flat(a) + Flat(b)
    decreases |b|
  {
    if b == [] {
      assert a + b == a;
    } else {
      var front, last := b[..|b| - 1], b[|b| - 1];
      FlatConcat(a, front);
      SplitLast(b);
      Associative(a, front, [last]);
      FlatAppend(a + front, last);
      Associative(Flat(a), Flat(front), last);
    }
  }

  lemma {:induction false} FlatAround<E>(a: seq<seq<E>>, batch: seq<E>, b: seq<seq<E>>)
    ensures Flat(a + ([batch] + b)) == Flat(a) + (batch + Flat(b))
  {
    FlatConcat(a, [batch] + b);
    FlatConcat([batch], b);
    FlatOne(batch);
  }

  lemma {:induction false} FlatOne<E>(batch: seq<E>)
    ensures Flat([batch]) == batch
  {
    assert [batch][..0] == [];
    assert Flat([batch]) == [] + batch;
  }

  lemma {:induction false} FlatMiddle<E>(a: seq<seq<E>>, batch: seq<E>, b: seq<seq<E>>)
    ensures multiset(Flat(a + ([batch] + b))) == multiset(Flat(a + b)) + multiset(batch)
  {
    FlatAround(a, batch, b);
    FlatConcat(a, b);
    Regroup(Flat(a), batch, Flat(b));
  }

  lemma {:induction false} SplitAround<T>(s: seq<T>, i: nat)
    requires i < |s|
    ensures s == s[..i] + ([s[i]] + s[i + 1..])
  {
  }

  lemma {:induction false} CutMultiset<T>(s: seq<T>, cut: nat)
    requires cut <= |s|
    ensures multiset(s) == multiset(s[..cut]) + multiset(s[cut..])
  {
    assert s == s[..cut] + s[cut..];
  }

  lemma {:induction false} FlatWithout<E>(batches: seq<seq<E>>, i: nat)
    requires i < |batches|
    ensures multiset(Flat(batches)) == multiset(Flat(Without(batches, i))) + multiset(batches[i])
  {
    SplitAround(batches, i);
    FlatMiddle(batches[..i], batches[i], batches[i + 1..]);
  }

  lemma {:induction false} Regroup<E>(a: seq<E>, x: seq<E>, b: seq<E>)
    ensures multiset(a + (x + b)) == multiset(a + b) + multiset(x)
  {
    assert multiset(a + (x + b)) == multiset(a) + (multiset(x) + multiset(b));
    assert multiset(a + b) == multiset(a) + multiset(b);
  }

  ghost function Everywhere<E>(s: State<E>): multiset<E> {
    multiset(s.pending) + multiset(Flat(s.inFlight)) + multiset(s.reported) + multiset(s.lost)
  }

  lemma {:induction false} Exchange<E>(p: multiset<E>, f: multiset<E>, r: multiset<E>, l: multiset<E>,
          x: multiset<E>, c: multiset<E>, q: multiset<E>)
    requires p + x == c + q
    ensures p + f + r + l + x == q + f + r + (l + c)
  {
    assert p + f + r + l + x == (p + x) + f + r + l;
  }

  lemma {:induction false} CollectConserves<E>(s: State<E>, e: E)
    requires multiset(s.collected) == Everywhere(s)
    ensures multiset(Apply(s, Collect(e)).collected) == Everywhere(Apply(s, Collect(e)))
  {
    var all, cut := s.pending + [e], Trimmed(s.pending + [e]);
    CutMultiset(all, cut);
    assert multiset(all) == multiset(s.pending) + multiset{e};
    Exchange(multiset(s.pending), multiset(Flat(s.inFlight)), multiset(s.reported), multiset(s.lost), multiset{e},
             multiset(all[..cut]), multiset(all[cut..]));
  }

  lemma {:induction false} TakeConserves<E>(s: State<E>)
    requires s.pending != []
    ensures Everywhere(Apply(s, Take)) == Everywhere(s)
  {
    FlatConcat(s.inFlight, [s.pending]);
    FlatOne(s.pending);
    assert multiset(Flat(s.inFlight) + s.pending) == multiset(Flat(s.inFlight)) + multiset(s.pending);
  }

  lemma {:induction false} ReturnConserves<E>(s: State<E>, i: nat, step: Step<E>)
    requires i < |s.inFlight| && step in {Deliver(i), PutBack(i), Abandon(i)}
    ensures Everywhere(Apply(s, step)) == Everywhere(s)
  {
    FlatWithout(s.inFlight, i);
    var batch := s.inFlight[i];
    assert multiset(s.reported + batch) == multiset(s.reported) + multiset(batch);
    assert multiset(batch + s.pending) == multiset(batch) + multiset(s.pending);
    assert multiset(s.lost + batch) == multiset(s.lost) + multiset(batch);
  }

  lemma {:induction false} StepConserves<E>(s: State<E>, step: Step<E>)
    requires Enabled(s, step) && multiset(s.collected) == Everywhere(s)
    ensures multiset(Apply(s, step).collected) == Everywhere(Apply(s, step))
  {
    match step
    case Collect(e) => CollectConserves(s, e);
    case Take => TakeConserves(s);
    case Deliver(i) => ReturnConserves(s, i, step);
    case PutBack(i) => ReturnConserves(s, i, step);
    case Abandon(i) => ReturnConserves(s, i, step);
  }

  /** Whatever the reporters do, an event is pending, in flight, reported or lost, as often as it was collected. */
  lemma {:induction false} RunConserves<E>(steps: seq<Step<E>>)
    ensures multiset(After(steps).collected) == Everywhere(After(steps))
  {
    if steps == [] {
    } else {
      var s, step := After(steps[..|steps| - 1]), steps[|steps| - 1];
      RunConserves(steps[..|steps| - 1]);
      if Enabled(s, step) {
        StepConserves(s, step);
      }
    }
  }

  /** Right after an event is collected the buffer is within its limit, and ends with that event. */
  lemma {:induction false} CollectKeepsLimit<E>(s: State<E>, e: E)
    ensures var t := Apply(s, Collect(e));
      && 1 <= |t.pending| <= 1000 && t.pending[|t.pending| - 1] == e
      && (t.lost != s.lost ==> |t.pending| == 1000)
      && t.lost + t.pending == s.lost + s.pending + [e]
  {
    var all, cut := s.pending + [e], Trimmed(s.pending + [e]);
    assert all == all[..cut] + all[cut..];
    assert s.lost + all[..cut] + all[cut..] == s.lost + all;
  }

  // ---------------------------------------------------------------------------
  // Any number of reporters: which turns keep the order.
  // ---------------------------------------------------------------------------

  function InOrder<E>(s: State<E>): seq<E> {
    s.reported + Flat(s.inFlight) + s.pending
  }

  ghost predicate Ordered<E>(s: State<E>) {
    Subsequence(InOrder(s), s.collected)
  }

  predicate NoEmptyBatch<E>(batches: seq<seq<E>>) {
    forall k :: 0 <= k < |batches| ==> |batches[k]| > 0
  }

  /** The oldest batch is delivered first and the youngest put back first; everything else is free. */
  predicate InTurn<E(==)>(s: State<E>, step: Step<E>) {
    match step
    case Deliver(i) => i == 0
    case PutBack(i) => i == |s.inFlight| - 1
    case _ => true
  }

  function Before<E>(s: State<E>, i: nat): seq<E>
    requires i < |s.inFlight|
  {
    Flat(s.inFlight[..i])
  }

  function Behind<E>(s: State<E>, i: nat): seq<E>
    requires i < |s.inFlight|
  {
    Flat(s.inFlight[i + 1..])
  }

  lemma {:induction false} FlatParts<E>(s: State<E>, i: nat)
    requires i < |s.inFlight|
    ensures Flat(s.inFlight) == Before(s, i) + (s.inFlight[i] + Behind(s, i))
    ensures Flat(Without(s.inFlight, i)) == Before(s, i) + Behind(s, i)
  {
    SplitAround(s.inFlight, i);
    FlatAround(s.inFlight[..i], s.inFlight[i], s.inFlight[i + 1..]);
    FlatConcat(s.inFlight[..i], s.inFlight[i + 1..]);
  }

  lemma {:induction false} FlatNotEmpty<E>(batches: seq<seq<E>>)
    requires batches != [] && NoEmptyBatch(batches)
    ensures Flat(batches) != []
  {
    assert |batches[|batches| - 1]| > 0;
  }

  lemma {:induction false} Reassociate<T>(r: seq<T>, a: seq<T>, b: seq<T>, c: seq<T>, p: seq<T>)
    ensures r + (a + (b + c)) + p == r + a + b + (c + p)
    ensures r + (a + (b + c)) + p == (r + a) + b + c + p
  {
  }

  /** The order seen from batch i. */
  lemma {:induction false} OrderAround<E>(s: State<E>, i: nat)
    requires i < |s.inFlight|
    ensures InOrder(s) == s.reported + Before(s, i) + s.inFlight[i] + (Behind(s, i) + s.pending)
    ensures InOrder(s) == (s.reported + Before(s, i)) + s.inFlight[i] + Behind(s, i) + s.pending
  {
    FlatParts(s, i);
    Reassociate(s.reported, Before(s, i), s.inFlight[i], Behind(s, i), s.pending);
  }

  lemma {:induction false} OrderDelivered<E>(s: State<E>, i: nat)
    requires i < |s.inFlight|
    ensures InOrder(Apply(s, Deliver(i))) == s.reported + s.inFlight[i] + Before(s, i) + (Behind(s, i) + s.pending)
  {
    FlatParts(s, i);
    Regrouped(s.reported + s.inFlight[i], Before(s, i), Behind(s, i), s.pending);
  }

  lemma {:induction false} OrderPutBack<E>(s: State<E>, i: nat)
    requires i < |s.inFlight|
    ensures InOrder(Apply(s, PutBack(i))) == (s.reported + Before(s, i)) + Behind(s, i) + s.inFlight[i] + s.pending
  {
    FlatParts(s, i);
    Regrouped(s.reported, Before(s, i), Behind(s, i), s.inFlight[i] + s.pending);
    Associative(s.reported + Before(s, i) + Behind(s, i), s.inFlight[i], s.pending);
    Associative(s.reported + Before(s, i), Behind(s, i), s.inFlight[i] + s.pending);
  }

  lemma {:induction false} Regrouped<T>(r: seq<T>, a: seq<T>, b: seq<T>, p: seq<T>)
    ensures r + (a + b) + p == r + a + (b + p)
  {
  }

  lemma {:induction false} DeliverInOrder<E>(s: State<E>, i: nat)
    requires i < |s.inFlight| && NoEmptyBatch(s.inFlight) && Ordered(s)
    ensures i == 0 ==> Ordered(Apply(s, Deliver(i)))
    ensures i > 0 && Distinct(s.collected) ==> !Ordered(Apply(s, Deliver(i)))
  {
    OrderAround(s, i);
    OrderDelivered(s, i);
    var batch, ahead := s.inFlight[i], Before(s, i);
    if i == 0 {
      assert ahead == [];
      assert s.reported + ahead + batch == s.reported + batch + ahead;
    } else if Distinct(s.collected) {
      FlatNotEmpty(s.inFlight[..i]);
      SwapBreaksOrder(s.reported, ahead, batch, Behind(s, i) + s.pending, s.collected);
    }
  }

  lemma {:induction false} PutBackInOrder<E>(s: State<E>, i: nat)
    requires i < |s.inFlight| && NoEmptyBatch(s.inFlight) && Ordered(s)
    ensures i == |s.inFlight| - 1 ==> Ordered(Apply(s, PutBack(i)))
    ensures i < |s.inFlight| - 1 && Distinct(s.collected) ==> !Ordered(Apply(s, PutBack(i)))
  {
    OrderAround(s, i);
    OrderPutBack(s, i);
    var batch, behind, ahead := s.inFlight[i], Behind(s, i), s.reported + Before(s, i);
    if i == |s.inFlight| - 1 {
      assert behind == [];
      assert ahead + batch + behind == ahead + behind + batch;
    } else if Distinct(s.collected) {
      FlatNotEmpty(s.inFlight[i + 1..]);
      SwapBreaksOrder(ahead, batch, behind, s.pending, s.collected);
    }
  }

  lemma {:induction false} AbandonInOrder<E>(s: State<E>, i: nat)
    requires i < |s.inFlight| && Ordered(s)
    ensures Ordered(Apply(s, Abandon(i)))
  {
    OrderAround(s, i);
    FlatParts(s, i);
    Regrouped(s.reported, Before(s, i), Behind(s, i), s.pending);
    Drop(s.reported + Before(s, i), s.inFlight[i], Behind(s, i) + s.pending, s.collected);
  }

  lemma {:induction false} CollectInOrder<E>(s: State<E>, e: E)
    requires Ordered(s)
    ensures Ordered(Apply(s, Collect(e)))
  {
    var all, cut := s.pending + [e], Trimmed(s.pending + [e]);
    var ahead := s.reported + Flat(s.inFlight);
    assert all == all[..cut] + all[cut..];
    assert InOrder(s) + [e] == ahead + all[..cut] + all[cut..];
    SubsequenceExtend(InOrder(s), s.collected, e);
    Drop(ahead, all[..cut], all[cut..], s.collected + [e]);
  }

  lemma {:induction false} TakeInOrder<E>(s: State<E>)
    requires s.pending != []
    ensures InOrder(Apply(s, Take)) == InOrder(s)
  {
    FlatAppend(s.inFlight, s.pending);
    Associative(s.reported, Flat(s.inFlight), s.pending);
    assert s.reported + (Flat(s.inFlight) + s.pending) + [] == s.reported + (Flat(s.inFlight) + s.pending);
  }

  /** A step keeps the order of distinct events exactly if it is in turn; the order is kept whatever they are. */
  lemma {:induction false} KeepsOrderIffInTurn<E>(s: State<E>, step: Step<E>)
    requires Enabled(s, step) && NoEmptyBatch(s.inFlight) && Ordered(s)
    ensures InTurn(s, step) ==> Ordered(Apply(s, step))
    ensures Distinct(s.collected) ==> (Ordered(Apply(s, step)) <==> InTurn(s, step))
  {
    match step
    case Collect(e) => CollectInOrder(s, e);
    case Take => TakeInOrder(s);
    case Deliver(i) => DeliverInOrder(s, i);
    case PutBack(i) => PutBackInOrder(s, i);
    case Abandon(i) => AbandonInOrder(s, i);
  }

  lemma {:induction false} BatchesNotEmpty<E>(steps: seq<Step<E>>)
    ensures NoEmptyBatch(After(steps).inFlight)
  {
    if steps == [] {
    } else {
      BatchesNotEmpty(steps[..|steps| - 1]);
    }
  }

  predicate TurnsKept<E(==)>(steps: seq<Step<E>>) {
    steps == [] ||
    (TurnsKept(steps[..|steps| - 1]) && InTurn(After(steps[..|steps| - 1]), steps[|steps| - 1]))
  }

  /** After each step, reported, in-flight and pending events are an in-order subsequence of the collected ones. */
  ghost predicate OrderedThroughout<E>(steps: seq<Step<E>>) {
    Ordered(After(steps)) && (steps == [] || OrderedThroughout(steps[..|steps| - 1]))
  }

  lemma {:induction false} CollectedGrows<E>(steps: seq<Step<E>>)
    requires steps != [] && Distinct(After(steps).collected)
    ensures Distinct(After(steps[..|steps| - 1]).collected)
  {
    var before, after := After(steps[..|steps| - 1]).collected, After(steps).collected;
    assert before <= after;
    assert forall i :: 0 <= i < |before| ==> before[i] == after[i];
  }

  /**
   For any number of concurrent reporters: keeping to the turns keeps the order at every moment of a run, and
   for distinct events nothing else does.
   */
  lemma {:induction false} OrderedIffTurnsKept<E>(steps: seq<Step<E>>)
    requires Runs(steps)
    ensures TurnsKept(steps) ==> OrderedThroughout(steps)
    ensures Distinct(After(steps).collected) ==> (OrderedThroughout(steps) <==> TurnsKept(steps))
  {
    if steps == [] {
    } else {
      var front, step := steps[..|steps| - 1], steps[|steps| - 1];
      OrderedIffTurnsKept(front);
      BatchesNotEmpty(front);
      if Ordered(After(front)) {
        KeepsOrderIffInTurn(After(front), step);
      }
      if Distinct(After(steps).collected) {
        CollectedGrows(steps);
      }
    }
  }

  lemma {:induction false} Drop<E>(x: seq<E>, y: seq<E>, z: seq<E>, all: seq<E>)
    requires Subsequence(x + y + z, all)
    ensures Subsequence(x + z, all)
  {
    DropMiddle(x, y, z);
    SubsequenceTransitive(x + z, x + y + z, all);
  }

  lemma {:induction false} AfterAppend<E>(steps: seq<Step<E>>, step: Step<E>)
    requires Enabled(After(steps), step)
    ensures After(steps + [step]) == Apply(After(steps), step)
  {
    assert (steps + [step])[..|steps|] == steps;
  }

  lemma {:induction false} TwoInFlight<E>(a: E, b: E)
    ensures After([Collect(a), Take, Collect(b), Take]) == State([], [[a], [b]], [], [], [a, b])
  {
    var none: seq<Step<E>> := [];
    var one: seq<Step<E>> := [Collect(a)];
    var two: seq<Step<E>> := [Collect(a), Take];
    var three: seq<Step<E>> := [Collect(a), Take, Collect(b)];
    assert none + [Collect(a)] == one && one + [Take] == two && two + [Collect(b)] == three;
    AfterAppend(none, Collect(a));
    assert After(one) == State([a], [], [], [], [a]);
    AfterAppend(one, Take);
    assert After(two) == State([], [[a]], [], [], [a]);
    AfterAppend(two, Collect(b));
    assert After(three) == State([b], [[a]], [], [], [a, b]);
    AfterAppend(three, Take);
    assert three + [Take] == [Collect(a), Take, Collect(b), Take];
  }

  /** Two reporters at once can deliver in the wrong order: the second batch may arrive first. */
  lemma {:induction false} TwoReportersReorder<E>(a: E, b: E)
    requires a != b
    ensures var s := After([Collect(a), Take, Collect(b), Take] + [Deliver(1)] + [Deliver(0)]);
      && s == State([], [], [b, a], [], [a, b])
      && !Subsequence(s.reported, s.collected)
  {
    var four: seq<Step<E>> := [Collect(a), Take, Collect(b), Take];
    TwoInFlight(a, b);
    AfterAppend(four, Deliver(1));
    assert Without([[a], [b]], 1) == [[a]];
    assert After(four + [Deliver(1)]) == State([], [[a]], [b], [], [a, b]);
    AfterAppend(four + [Deliver(1)], Deliver(0));
    assert Without([[a]], 0) == [];
    SwapIsNoSubsequence(a, b);
  }

  lemma {:induction false} SwapIsNoSubsequence<E>(a: E, b: E)
    requires a != b
    ensures !Subsequence([b, a], [a, b])
  {
    assert [a, b][..1] == [a] && [a][..0] == [];
    assert [b, a][..1] == [b];
    assert !Subsequence([b, a], []);
    assert !Subsequence([b, a], [a]) by {
      assert !Subsequence([b], []);
    }
  }

  // ---------------------------------------------------------------------------
  // The limit.
  // ---------------------------------------------------------------------------

  /** A batch put back stays within the limit exactly if it fits beside what came since. */
  lemma {:induction false} PutBackWithinLimitIff<E>(s: State<E>, i: nat)
    requires i < |s.inFlight|
    ensures |Apply(s, PutBack(i)).pending| <= 1000 <==> |s.inFlight[i]| + |s.pending| <= 1000
  {
  }

  /** k full batches in flight. */
  predicate Loaded<E>(s: State<E>, k: nat) {
    |s.inFlight| == k && forall i :: 0 <= i < k ==> |s.inFlight[i]| == LIMIT
  }

  lemma {:induction false} RunOneMore<E>(steps: seq<Step<E>>, step: Step<E>)
    requires Runs(steps) && Enabled(After(steps), step)
    ensures Runs(steps + [step]) && After(steps + [step]) == Apply(After(steps), step)
  {
    AfterAppend(steps, step);
    assert (steps + [step])[..|steps|] == steps;
  }

  lemma {:induction false} CollectUpTo<E>(before: seq<Step<E>>, k: nat, n: nat, e: E) returns (steps: seq<Step<E>>)
    requires Runs(before) && Loaded(After(before), k) && After(before).pending == [] && n <= LIMIT
    ensures Runs(steps) && Loaded(After(steps), k) && |After(steps).pending| == n
  {
    steps := before;
    for i := 0 to n
      invariant Runs(steps) && Loaded(After(steps), k) && |After(steps).pending| == i
    {
      RunOneMore(steps, Collect(e));
      steps := steps + [Collect(e)];
    }
  }

  lemma {:induction false} LoadUp<E>(k: nat, e: E) returns (steps: seq<Step<E>>)
    ensures Runs(steps) && Loaded(After(steps), k) && After(steps).pending == []
  {
    if k == 0 {
      steps := [];
    } else {
      var before := LoadUp(k - 1, e);
      var full := CollectUpTo(before, k - 1, LIMIT, e);
      RunOneMore(full, Take);
      steps := full + [Take];
    }
  }

  /** No bound holds over runs: any number of full batches can come back before the next event is collected. */
  lemma {:induction false} NoBoundOnPending<E>(k: nat, e: E) returns (steps: seq<Step<E>>)
    ensures Runs(steps) && |After(steps).pending| == k * 1000
  {
    steps := LoadUp(k, e);
    for m := 0 to k
      invariant Runs(steps) && Loaded(After(steps), k - m) && |After(steps).pending| == m * LIMIT
    {
      RunOneMore(steps, PutBack(0));
      steps := steps + [PutBack(0)];
    }
  }

  // ---------------------------------------------------------------------------
  // The agent.
  // ---------------------------------------------------------------------------

  /** How a report ends: unencodable, no request made, not sent, or answered with any status. */
  datatype Ending = MarshalFails | RequestFails | SendFails | Answered

  class Agent<E> {
    var pendingEvents: seq<E>
    ghost var st: State<E>

    ghost predicate Valid()
      reads this
    {
      pendingEvents == st.pending
    }

    constructor ()
      ensures Valid() && st == State([], [], [], [], [])
    {
      pendingEvents := [];
      st := State([], [], [], [], []);
    }

    /** One turn of the collector loop. */
    method CollectEvent(event: E)
      requires Valid()
      modifies this
      ensures Valid() && st == Apply(old(st), Collect(event))
    {
      pendingEvents := pendingEvents + [event];
      if |pendingEvents| > LIMIT {
        pendingEvents := pendingEvents[|pendingEvents| - LIMIT..];
      }
      st := Apply(st, Collect(event));
    }

    method TakeBatch() returns (events: seq<E>)
      requires Valid()
      modifies this
      ensures Valid() && events == old(pendingEvents)
      ensures st == if events == [] then old(st) else Apply(old(st), Take)
    {
      events := pendingEvents;
      if |pendingEvents| == 0 {
        return;
      }
      pendingEvents := [];
      st := Apply(st, Take);
    }

    method PutBackBatch(events: seq<E>, ghost batch: nat)
      requires Valid() && batch < |st.inFlight| && st.inFlight[batch] == events
      modifies this
      ensures Valid() && st == Apply(old(st), PutBack(batch))
    {
      pendingEvents := events + pendingEvents;
      st := Apply(st, PutBack(batch));
    }

    /** A report during which no other critical section runs. */
    method ReportEvents(hasMaster: bool, ending: Ending)
      requires Valid()
      modifies this
      ensures Valid()
      ensures !hasMaster || old(pendingEvents) == [] ==> st == old(st)
      ensures hasMaster && old(pendingEvents) != [] ==>
        var batch := |old(st).inFlight|;
        st == Apply(Apply(old(st), Take), if ending == Answered then Deliver(batch)
                                          else if ending == RequestFails then Abandon(batch)
                                          else PutBack(batch))
    {
      if !hasMaster {
        return;
      }
      var events := TakeBatch();
      if |events| == 0 {
        return;
      }
      ghost var batch := |st.inFlight| - 1;
      match ending {
        case MarshalFails => PutBackBatch(events, batch);
        case RequestFails => st := Apply(st, Abandon(batch));
        case SendFails => PutBackBatch(events, batch);
        case Answered => st := Apply(st, Deliver(batch));
      }
    }
  }
}
