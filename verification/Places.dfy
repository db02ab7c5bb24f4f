/**
 Where an accepted request can be: in one plan position, among the cancelled, or in its queue; and
 never in two of these places.
 */
module Places {
  import opened BatchScheduler
  import opened SchedulerRuns

  /** Position of a plan's i-th request in the acceptance order of its key. */
  function PlanPos(plans: seq<BatchPlan>, p: nat, i: nat): nat
    requires p < |plans|
  {
    |Of(plans[..p], plans[p].key)| + i
  }

  lemma {:induction false} OfPrefix(plans: seq<BatchPlan>, p: nat, k: SchedulingKey)
    requires p <= |plans|
    ensures Of(plans[..p], k) <= Of(plans, k)
    decreases |plans|
  {
    if p == |plans| {
      assert plans[..p] == plans;
    } else {
      var rest := plans[..|plans| - 1];
      OfPrefix(rest, p, k);
      assert rest[..p] == plans[..p];
    }
  }

  lemma PlanItemAt(plans: seq<BatchPlan>, p: nat, i: nat)
    requires p < |plans| && i < |plans[p].items|
    ensures PlanPos(plans, p, i) < |Of(plans[..p + 1], plans[p].key)| <= |Of(plans, plans[p].key)|
    ensures Of(plans, plans[p].key)[PlanPos(plans, p, i)] == plans[p].items[i]
  {
    var k := plans[p].key;
    assert plans[..p + 1][..p] == plans[..p];
    OfPrefix(plans, p + 1, k);
  }

  lemma PlanPosGrows(plans: seq<BatchPlan>, p: nat, i: nat, q: nat, j: nat)
    requires p < q < |plans| && i < |plans[p].items| && plans[p].key == plans[q].key
    ensures PlanPos(plans, p, i) < PlanPos(plans, q, j)
  {
    PlanItemAt(plans, p, i);
    OfPrefix(plans[..q], p + 1, plans[p].key);
    assert plans[..q][..p + 1] == plans[..p + 1];
  }

  /** The accepted position of a request in each of the three places. */
  lemma PlannedPosition(r: Run, p: nat, i: nat)
    requires Fifo(r) && p < |r.plans| && i < |r.plans[p].items|
    ensures var k, n := r.plans[p].key, PlanPos(r.plans, p, i);
            n < |Of(r.plans, k)| && k in r.accepted && n < |r.accepted[k]| && r.accepted[k][n] == r.plans[p].items[i]
  {
    assert FifoAt(r, r.plans[p].key);
    PlanItemAt(r.plans, p, i);
  }

  lemma CancelledPosition(r: Run, k: SchedulingKey, i: nat)
    requires Fifo(r) && i < |Get(r.cancelled, k)|
    ensures var n := |Of(r.plans, k)| + i;
            k in r.accepted && n < |r.accepted[k]| && r.accepted[k][n] == Get(r.cancelled, k)[i]
  {
    assert FifoAt(r, k);
  }

  lemma QueuedPosition(r: Run, k: SchedulingKey, i: nat)
    requires Fifo(r) && i < |Queued(r.state, k)|
    ensures var n := |Of(r.plans, k)| + |Get(r.cancelled, k)| + i;
            k in r.accepted && n < |r.accepted[k]| && r.accepted[k][n] == Queued(r.state, k)[i]
  {
    assert FifoAt(r, k);
  }

  ghost predicate AcceptedId(r: Run, id: nat) {
    exists k, n :: k in r.accepted && 0 <= n < |r.accepted[k]| && r.accepted[k][n].id == id
  }

  ghost predicate PlansApart(r: Run) {
    forall p, i, q, j | 0 <= p < |r.plans| && 0 <= i < |r.plans[p].items| && 0 <= q < |r.plans| && 0 <= j < |r.plans[q].items| ::
      r.plans[p].items[i].id == r.plans[q].items[j].id ==> p == q && i == j
  }

  ghost predicate PlanQueueApart(r: Run) {
    forall p, i, k, j | 0 <= p < |r.plans| && 0 <= i < |r.plans[p].items| && k in r.state.queues && 0 <= j < |r.state.queues[k].items| ::
      r.plans[p].items[i].id != r.state.queues[k].items[j].id
  }

  ghost predicate PlanCancelledApart(r: Run) {
    forall p, i, k, j | 0 <= p < |r.plans| && 0 <= i < |r.plans[p].items| && k in r.cancelled && 0 <= j < |r.cancelled[k]| ::
      r.plans[p].items[i].id != r.cancelled[k][j].id
  }

  ghost predicate QueueCancelledApart(r: Run) {
    forall k, i, l, j | k in r.state.queues && 0 <= i < |r.state.queues[k].items| && l in r.cancelled && 0 <= j < |r.cancelled[l]| ::
      r.state.queues[k].items[i].id != r.cancelled[l][j].id
  }

  ghost predicate HavePromises(r: Run) {
    && (forall p, i | 0 <= p < |r.plans| && 0 <= i < |r.plans[p].items| :: r.plans[p].items[i].id in r.state.promises)
    && (forall k, i | k in r.cancelled && 0 <= i < |r.cancelled[k]| :: r.cancelled[k][i].id in r.state.promises)
  }

  ghost predicate Apart(r: Run) {
    PlansApart(r) && PlanQueueApart(r) && PlanCancelledApart(r) && QueueCancelledApart(r) && WaitingOnce(r.state) && HavePromises(r)
  }

  lemma PlansAreApart(r: Run)
    requires Fifo(r) && Distinct(r)
    ensures PlansApart(r)
  {
    forall p, i, q, j | 0 <= p < |r.plans| && 0 <= i < |r.plans[p].items| && 0 <= q < |r.plans| && 0 <= j < |r.plans[q].items|
      ensures r.plans[p].items[i].id == r.plans[q].items[j].id ==> p == q && i == j
    {
      PlannedPosition(r, p, i);
      PlannedPosition(r, q, j);
      if r.plans[p].key == r.plans[q].key {
        if p < q { PlanPosGrows(r.plans, p, i, q, j); }
        if q < p { PlanPosGrows(r.plans, q, j, p, i); }
      }
    }
  }

  lemma QueuesAreApart(r: Run)
    requires Fifo(r) && Distinct(r)
    ensures PlanQueueApart(r) && WaitingOnce(r.state)
  {
    forall p, i, k, j | 0 <= p < |r.plans| && 0 <= i < |r.plans[p].items| && k in r.state.queues && 0 <= j < |r.state.queues[k].items|
      ensures r.plans[p].items[i].id != r.state.queues[k].items[j].id
    {
      PlannedPosition(r, p, i);
      QueuedPosition(r, k, j);
    }
    forall k, i | k in r.state.queues && 0 <= i < |r.state.queues[k].items|
      ensures r.state.queues[k].items[i].id in r.state.promises
    {
      QueuedPosition(r, k, i);
    }
    forall k1, i1, k2, i2 | k1 in r.state.queues && k2 in r.state.queues && 0 <= i1 < |r.state.queues[k1].items| && 0 <= i2 < |r.state.queues[k2].items|
      ensures r.state.queues[k1].items[i1].id == r.state.queues[k2].items[i2].id ==> k1 == k2 && i1 == i2
    {
      QueuedPosition(r, k1, i1);
      QueuedPosition(r, k2, i2);
    }
  }

  lemma CancelledAreApart(r: Run)
    requires Fifo(r) && Distinct(r)
    ensures PlanCancelledApart(r) && QueueCancelledApart(r) && HavePromises(r)
  {
    forall k, j | k in r.cancelled && 0 <= j < |r.cancelled[k]|
      ensures r.cancelled[k][j].id in r.state.promises
    {
      CancelledPosition(r, k, j);
    }
    forall p, i | 0 <= p < |r.plans| && 0 <= i < |r.plans[p].items|
      ensures r.plans[p].items[i].id in r.state.promises
    {
      PlannedPosition(r, p, i);
    }
    forall p, i, k, j | 0 <= p < |r.plans| && 0 <= i < |r.plans[p].items| && k in r.cancelled && 0 <= j < |r.cancelled[k]|
      ensures r.plans[p].items[i].id != r.cancelled[k][j].id
    {
      PlannedPosition(r, p, i);
      CancelledPosition(r, k, j);
    }
    forall k, i, l, j | k in r.state.queues && 0 <= i < |r.state.queues[k].items| && l in r.cancelled && 0 <= j < |r.cancelled[l]|
      ensures r.state.queues[k].items[i].id != r.cancelled[l][j].id
    {
      QueuedPosition(r, k, i);
      CancelledPosition(r, l, j);
    }
  }

  /** In every run no request is in two places, or twice in one. */
  lemma AllApart(r: Run)
    requires Fifo(r) && Distinct(r)
    ensures Apart(r)
  {
    PlansAreApart(r);
    QueuesAreApart(r);
    CancelledAreApart(r);
  }
}
