/** Which groups the reaper expires, in terms of when they were formed in the run. */
module AggregatorExpiry {
  import opened Reliability
  import opened Messages
  import opened GroupStoreSpec
  import opened Aggregator
  import opened AggregatorLeases
  import opened AggregatorRuns

  /** Step i formed the group of k: its first member was stored, or a settlement left behind what
      had arrived during the lease. */
  ghost predicate FormsAt(states: seq<State>, steps: seq<(nat, Event)>, k: string, i: nat)
    requires |states| == |steps| + 1
  {
    i < |steps| && Forms(states[i], steps[i].0, steps[i].1, states[i + 1].store, k)
  }

  ghost predicate Forms(s: State, c: nat, ev: Event, after: Store, k: string) {
    && k in after.groups
    && ((ev.AddMember? && ev.key == k && k !in s.store.groups) ||
        (ev.Settle? && c in s.calls && HoldsKey(s.calls[c], k)))
  }

  lemma AgeStep(s: State, c: nat, ev: Event, k: string)
    requires LeasesInv(s.store, s.calls) && Enabled(s, c, ev) && k in Step(s, c, ev).store.groups
    ensures Ages(s, c, ev, Step(s, c, ev).store, k)
  {
    if c in s.calls && Holding(s.calls[c]) {
      assert ClaimInForce(s.store, s.calls[c].claim);
    }
  }

  /** The group is as old as this step if the step forms it, and else as old as before. */
  ghost predicate Ages(s: State, c: nat, ev: Event, after: Store, k: string)
    requires k in after.groups
  {
    if Forms(s, c, ev, after, k) then after.groups[k].createdAt == ev.now
    else k in s.store.groups && after.groups[k].createdAt == s.store.groups[k].createdAt
  }

  ghost predicate AgesAt(states: seq<State>, steps: seq<(nat, Event)>, n: nat, k: string)
    requires n < |states| == |steps| + 1
  {
    k in states[n].store.groups ==> n > 0 && Ages(states[n - 1], steps[n - 1].0, steps[n - 1].1, states[n].store, k)
  }

  lemma AgesAlways(states: seq<State>, steps: seq<(nat, Event)>, n: nat, k: string)
    requires Run(states, steps) && n < |states|
    ensures AgesAt(states, steps, n, k)
  {
    if k in states[n].store.groups {
      LeasesAlways(states, steps, n - 1);
      AgeStep(states[n - 1], steps[n - 1].0, steps[n - 1].1, k);
    }
  }

  /** Step i was the last to form the group of k before n. */
  ghost predicate FormedAt(states: seq<State>, steps: seq<(nat, Event)>, n: nat, k: string, i: nat)
    requires |states| == |steps| + 1
  {
    i < n && FormsAt(states, steps, k, i) && forall j :: i < j < n ==> !FormsAt(states, steps, k, j)
  }

  lemma {:induction false} LastForming(states: seq<State>, steps: seq<(nat, Event)>, n: nat, k: string)
    returns (i: nat)
    requires n < |states| == |steps| + 1 && k in states[n].store.groups
    requires forall m :: 0 <= m <= n ==> AgesAt(states, steps, m, k)
    ensures FormedAt(states, steps, n, k, i) && states[n].store.groups[k].createdAt == steps[i].1.now
  {
    assert AgesAt(states, steps, n, k);
    if FormsAt(states, steps, k, n - 1) {
      i := n - 1;
    } else {
      i := LastForming(states, steps, n - 1, k);
    }
  }

  /** A group is as old as the last step that formed it. */
  lemma FormedLast(states: seq<State>, steps: seq<(nat, Event)>, n: nat, k: string) returns (i: nat)
    requires Run(states, steps) && n < |states| && k in states[n].store.groups
    ensures FormedAt(states, steps, n, k, i) && states[n].store.groups[k].createdAt == steps[i].1.now
  {
    forall m | 0 <= m <= n ensures AgesAt(states, steps, m, k) {
      AgesAlways(states, steps, m, k);
    }
    i := LastForming(states, steps, n, k);
  }

  /** The reaper, with a group in hand that its strategy has judged: it releases the group if and
      only if it is complete; it sends its members to the expired channel if and only if it is
      incomplete or undecidable, expiry is on, and the step that last formed the group was before
      the cutoff; it gives it back otherwise. */
  lemma ExpiresIff(states: seq<State>, steps: seq<(nat, Event)>, n: nat, c: nat) returns (i: nat)
    requires Run(states, steps) && n < |steps| && steps[n].0 == c && steps[n].1.Judge?
    requires c in states[n].calls && states[n].calls[c].Examining?
    ensures FormedAt(states, steps, n, states[n].calls[c].claim.key, i)
    ensures
      var cutoff, verdict, pc := states[n].calls[c].cutoff, steps[n].1.verdict, states[n + 1].calls[c];
      var aged := cutoff.Some? && steps[i].1.now < cutoff.value;
      var open := verdict.Incomplete? || verdict.Undecidable?;
      && (pc.Releasing? <==> verdict.Complete?)
      && (pc.Expiring? <==> open && aged)
      && (pc.GivingBack? <==> open && !aged)
  {
    LeasesAlways(states, steps, n);
    var claim := states[n].calls[c].claim;
    assert ClaimInForce(states[n].store, claim);
    i := FormedLast(states, steps, n, claim.key);
  }

  /** The drain loop of a release, with a residual in hand that its strategy has judged: it releases
      it too if and only if it is complete, and gives it back otherwise. */
  lemma DrainsIff(states: seq<State>, steps: seq<(nat, Event)>, n: nat, c: nat)
    requires Run(states, steps) && n < |steps| && steps[n].0 == c && steps[n].1.Judge?
    requires c in states[n].calls && states[n].calls[c].Judging?
    ensures
      var claim, verdict, pc := states[n].calls[c].claim, steps[n].1.verdict, states[n + 1].calls[c];
      && (pc.Releasing? <==> verdict.Complete?)
      && (pc.GivingBack? <==> verdict.Incomplete? || verdict.Undecidable?)
      && Holding(pc) && pc.claim == claim && states[n + 1].store == states[n].store
  {
    assert Enabled(states[n], c, steps[n].1);
  }
}
