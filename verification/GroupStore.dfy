/** adapter/memory/groupstore.go in its own form: the operations that update the store in
    place, each proved to do what GroupStoreSpec says. */
module MemoryGroupStore {
  import opened Reliability
  import opened Messages
  import opened GroupStoreSpec

  /** A group as Expired reports it. */
  datatype Snapshot = Snapshot(key: string, msgs: seq<Message>, createdAt: int)

  class GroupStore {
    var groups: map<string, Group>
    const maxGroups: nat
    const maxGroupMembers: nat

    ghost function Value(): Store
      reads this
    {
      Store(groups, maxGroups, maxGroupMembers)
    }

    ghost predicate Valid()
      reads this
    {
      ValidStore(Value())
    }

    constructor (maxGroups: nat, maxGroupMembers: nat)
      requires 1 <= maxGroups && 1 <= maxGroupMembers
      ensures Valid() && groups == map[]
      ensures this.maxGroups == maxGroups && this.maxGroupMembers == maxGroupMembers
    {
      this.groups := map[];
      this.maxGroups := maxGroups;
      this.maxGroupMembers := maxGroupMembers;
    }

    method Add(key: string, msg: Message, now: int) returns (live: Option<seq<Message>>, err: Option<Error>)
      requires Valid()
      modifies this`groups
      ensures Valid()
      ensures (Value(), AddReply(live, err)) == GroupStoreSpec.Add(old(Value()), key, msg, now)
    {
      AddKeepsValid(Value(), key, msg, now);
      var g := Group([], {}, now, 0, false, 0);
      if key in groups {
        g := groups[key];
      } else if |groups| >= maxGroups {
        return None, Some(Overflow());
      }
      var id := msg.ID();
      if id != "" && id in g.ids {
        return Some(g.msgs[g.claimedLen..]), None;
      }
      if |g.msgs| >= maxGroupMembers {
        return Some(g.msgs[g.claimedLen..]), Some(if g.leased then Overflow() else PermanentMark(Overflow()));
      }
      if id != "" {
        g := g.(ids := g.ids + {id});
      }
      g := g.(msgs := g.msgs + [msg]);
      groups := groups[key := g];
      return Some(g.msgs[g.claimedLen..]), None;
    }

    method ClaimGroup(key: string) returns (claim: Option<Claim>)
      requires Valid()
      modifies this`groups
      ensures Valid()
      ensures (Value(), claim) == GroupStoreSpec.ClaimGroup(old(Value()), key)
    {
      ClaimKeepsValid(Value(), key);
      if key !in groups || groups[key].leased {
        return None;
      }
      var g := groups[key];
      g := g.(epoch := g.epoch + 1);
      g := g.(leased := true);
      g := g.(claimedLen := |g.msgs|);
      groups := groups[key := g];
      assert g.msgs[..g.claimedLen] == g.msgs;
      return Some(Claim(key, g.msgs[..g.claimedLen], g.createdAt, g.epoch));
    }

    /** Deletes the ids of the claimed members one by one, so that a redelivery after the
        settlement forms a fresh group instead of a dedup no-op. */
    static method ForgetClaimed(msgs: seq<Message>, claimedLen: nat, ids: set<string>) returns (left: set<string>)
      requires claimedLen <= |msgs|
      ensures left == ids - IdsOf(msgs[..claimedLen])
    {
      left := ids;
      for i := 0 to claimedLen
        invariant left == ids - IdsOf(msgs[..i])
      {
        var id := msgs[i].ID();
        assert msgs[..i + 1] == msgs[..i] + [msgs[i]];
        IdsOfConcat(msgs[..i], [msgs[i]]);
        IdsOfOne(msgs[i]);
        if id != "" {
          left := left - {id};
        }
      }
    }

    method SettleGroup(claim: Claim, now: int)
      requires Valid()
      modifies this`groups
      ensures Valid()
      ensures Value() == GroupStoreSpec.SettleGroup(old(Value()), claim, now)
    {
      SettleKeepsValid(Value(), claim, now);
      if claim.key !in groups || !groups[claim.key].leased || groups[claim.key].epoch != claim.epoch {
        return;
      }
      var g := groups[claim.key];
      var ids := ForgetClaimed(g.msgs, g.claimedLen, g.ids);
      var residual := g.msgs[g.claimedLen..];
      if |residual| == 0 {
        groups := groups - {claim.key};
        return;
      }
      groups := groups[claim.key := Group(residual, ids, now, g.epoch, false, 0)];
    }

    method AbandonGroup(claim: Claim)
      requires Valid()
      modifies this`groups
      ensures Valid()
      ensures Value() == GroupStoreSpec.AbandonGroup(old(Value()), claim)
    {
      AbandonKeepsValid(Value(), claim);
      if claim.key !in groups || !groups[claim.key].leased || groups[claim.key].epoch != claim.epoch {
        return;
      }
      groups := groups[claim.key := groups[claim.key].(leased := false, claimedLen := 0)];
    }

    /** The groups the reaper must look at: each unleased group older than the cutoff, once,
        with all its members, and no other. The map is walked in any order. */
    method Expired(before: int) returns (out: seq<Snapshot>)
      ensures forall i :: 0 <= i < |out| ==>
        && out[i].key in groups
        && out[i] == Snapshot(out[i].key, groups[out[i].key].msgs, groups[out[i].key].createdAt)
        && groups[out[i].key].createdAt < before && !groups[out[i].key].leased
      ensures forall i, j :: 0 <= i < j < |out| ==> out[i].key != out[j].key
      ensures forall k :: k in groups && groups[k].createdAt < before && !groups[k].leased ==>
        exists i :: 0 <= i < |out| && out[i].key == k
    {
      out := [];
      var rest := groups.Keys;
      while rest != {}
        invariant rest <= groups.Keys
        invariant forall i :: 0 <= i < |out| ==>
          && out[i].key in groups && out[i].key !in rest
          && out[i] == Snapshot(out[i].key, groups[out[i].key].msgs, groups[out[i].key].createdAt)
          && groups[out[i].key].createdAt < before && !groups[out[i].key].leased
        invariant forall i, j :: 0 <= i < j < |out| ==> out[i].key != out[j].key
        invariant forall k :: k in groups && k !in rest && groups[k].createdAt < before && !groups[k].leased ==>
          exists i :: 0 <= i < |out| && out[i].key == k
        decreases rest
      {
        var key :| key in rest;
        var g := groups[key];
        ghost var was := out;
        if g.createdAt < before && !g.leased {
          out := out + [Snapshot(key, g.msgs, g.createdAt)];
          assert out[|was|].key == key;
        }
        forall k | k in groups && k !in rest - {key} && groups[k].createdAt < before && !groups[k].leased
          ensures exists i :: 0 <= i < |out| && out[i].key == k
        {
          if k != key {
            var i :| 0 <= i < |was| && was[i].key == k;
            assert out[i].key == k;
          }
        }
        rest := rest - {key};
      }
    }
  }
}
