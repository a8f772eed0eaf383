/** The group store of adapter/memory/groupstore.go as values: what each operation,
    run under the store's mutex, does to the map of groups. */
module GroupStoreSpec {
  import opened Reliability
  import opened Messages

  /** One correlation group. The active claim, if any, is the prefix msgs[..claimedLen]. */
  datatype Group = Group(
    msgs: seq<Message>,
    ids: set<string>,
    createdAt: int,
    epoch: nat,
    leased: bool,
    claimedLen: nat)

  datatype Store = Store(groups: map<string, Group>, maxGroups: nat, maxMembers: nat)

  /** What ClaimGroup hands out: the frozen members and the fence epoch. */
  datatype Claim = Claim(key: string, msgs: seq<Message>, createdAt: int, epoch: nat)

  /** What Add returns: the live snapshot, if any, and the error, if any. */
  datatype AddReply = AddReply(live: Option<seq<Message>>, err: Option<Error>)

  /** The non-empty ids carried by a member sequence. */
  function IdsOf(msgs: seq<Message>): set<string> {
    set i | 0 <= i < |msgs| && msgs[i].ID() != "" :: msgs[i].ID()
  }

  ghost predicate DistinctIds(msgs: seq<Message>) {
    forall i, j :: 0 <= i < j < |msgs| && msgs[i].ID() != "" ==> msgs[i].ID() != msgs[j].ID()
  }

  ghost predicate ValidGroup(g: Group, maxMembers: nat) {
    && 0 < |g.msgs| <= maxMembers
    && g.claimedLen <= |g.msgs|
    && (g.leased <==> g.claimedLen > 0)
    && g.ids == IdsOf(g.msgs)
    && DistinctIds(g.msgs)
  }

  ghost predicate ValidStore(s: Store) {
    && 1 <= s.maxGroups && 1 <= s.maxMembers
    && |s.groups| <= s.maxGroups
    && forall k :: k in s.groups ==> ValidGroup(s.groups[k], s.maxMembers)
  }

  function Live(g: Group): seq<Message> {
    if g.claimedLen <= |g.msgs| then g.msgs[g.claimedLen..] else []
  }

  function Overflow(): Error {
    Wrap(Leaf(OverflowDropped))
  }

  /** The group Add works on: the existing one, or the empty one it would create. */
  function GroupFor(s: Store, key: string, now: int): Group {
    if key in s.groups then s.groups[key] else Group([], {}, now, 0, false, 0)
  }

  predicate GroupRefused(s: Store, key: string) {
    key !in s.groups && |s.groups| >= s.maxGroups
  }

  predicate Duplicate(s: Store, key: string, m: Message) {
    key in s.groups && m.ID() != "" && m.ID() in s.groups[key].ids
  }

  predicate MemberRefused(s: Store, key: string, m: Message) {
    key in s.groups && !Duplicate(s, key, m) && |s.groups[key].msgs| >= s.maxMembers
  }

  predicate Accepted(s: Store, key: string, m: Message) {
    !GroupRefused(s, key) && !Duplicate(s, key, m) && !MemberRefused(s, key, m)
  }

  /** The group after an accepted Add. */
  function Append(g: Group, m: Message): Group {
    g.(msgs := g.msgs + [m], ids := if m.ID() != "" then g.ids + {m.ID()} else g.ids)
  }

  function Add(s: Store, key: string, m: Message, now: int): (Store, AddReply) {
    if GroupRefused(s, key) then (s, AddReply(None, Some(Overflow())))
    else
      var g := GroupFor(s, key, now);
      if Duplicate(s, key, m) then (s, AddReply(Some(Live(g)), None))
      else if MemberRefused(s, key, m) then
        (s, AddReply(Some(Live(g)), Some(if g.leased then Overflow() else PermanentMark(Overflow()))))
      else
        var g' := Append(g, m);
        (s.(groups := s.groups[key := g']), AddReply(Some(Live(g')), None))
  }

  function ClaimGroup(s: Store, key: string): (Store, Option<Claim>) {
    if key !in s.groups || s.groups[key].leased then (s, None)
    else
      var g := s.groups[key];
      var g' := g.(epoch := g.epoch + 1, leased := true, claimedLen := |g.msgs|);
      (s.(groups := s.groups[key := g']), Some(Claim(key, g.msgs, g.createdAt, g'.epoch)))
  }

  /** The fence: the lease the claim names is still the one in force. */
  predicate FenceHolds(s: Store, c: Claim) {
    c.key in s.groups && s.groups[c.key].leased && s.groups[c.key].epoch == c.epoch
  }

  function SettleGroup(s: Store, c: Claim, now: int): Store {
    if !FenceHolds(s, c) || s.groups[c.key].claimedLen > |s.groups[c.key].msgs| then s
    else
      var g := s.groups[c.key];
      var residual := g.msgs[g.claimedLen..];
      if residual == [] then s.(groups := s.groups - {c.key})
      else
        var g' := Group(residual, g.ids - IdsOf(g.msgs[..g.claimedLen]), now, g.epoch, false, 0);
        s.(groups := s.groups[c.key := g'])
  }

  function AbandonGroup(s: Store, c: Claim): Store {
    if !FenceHolds(s, c) then s
    else s.(groups := s.groups[c.key := s.groups[c.key].(leased := false, claimedLen := 0)])
  }

  // ---- What the operations keep -------------------------------------------------

  lemma IdsOfConcat(a: seq<Message>, b: seq<Message>)
    ensures IdsOf(a + b) == IdsOf(a) + IdsOf(b)
  {
    forall x ensures x in IdsOf(a + b) <==> x in IdsOf(a) || x in IdsOf(b) {
      if x in IdsOf(a) {
        var i :| 0 <= i < |a| && a[i].ID() != "" && a[i].ID() == x;
        assert (a + b)[i] == a[i];
      }
      if x in IdsOf(b) {
        var i :| 0 <= i < |b| && b[i].ID() != "" && b[i].ID() == x;
        assert (a + b)[|a| + i] == b[i];
      }
    }
  }

  lemma IdsOfOne(m: Message)
    ensures IdsOf([m]) == if m.ID() != "" then {m.ID()} else {}
  {
    assert [m][0] == m;
  }

  lemma AppendKeepsValid(g: Group, m: Message, maxMembers: nat)
    requires |g.msgs| < maxMembers
    requires g.claimedLen <= |g.msgs| && (g.leased <==> g.claimedLen > 0)
    requires g.ids == IdsOf(g.msgs) && DistinctIds(g.msgs)
    requires m.ID() == "" || m.ID() !in g.ids
    ensures ValidGroup(Append(g, m), maxMembers)
  {
    IdsOfConcat(g.msgs, [m]);
    IdsOfOne(m);
    var all := g.msgs + [m];
    forall i, j | 0 <= i < j < |all| && all[i].ID() != "" ensures all[i].ID() != all[j].ID() {
      if j == |g.msgs| {
        assert g.msgs[i].ID() in g.ids;
      }
    }
  }

  /** Add keeps the store valid, answers with an error exactly when it refuses, and a
      refusal leaves the store, dedup set included, exactly as it was. */
  lemma AddKeepsValid(s: Store, key: string, m: Message, now: int)
    requires ValidStore(s)
    ensures ValidStore(Add(s, key, m, now).0)
    ensures Add(s, key, m, now).1.err.Some? <==> GroupRefused(s, key) || MemberRefused(s, key, m)
    ensures !Accepted(s, key, m) ==> Add(s, key, m, now).0 == s
  {
    if Accepted(s, key, m) {
      var g := GroupFor(s, key, now);
      AppendKeepsValid(g, m, s.maxMembers);
      var s' := Add(s, key, m, now).0;
      assert s'.groups.Keys == s.groups.Keys + {key};
      assert |s'.groups| == |s'.groups.Keys| && |s.groups| == |s.groups.Keys|;
    }
  }

  /** An Add that reports no error leaves the message itself in the group, unless a held
      member already carries its id. As a refusal changes nothing, a refused member's
      redelivery is never swallowed on the refused delivery's account. */
  lemma NoErrorMeansHeld(s: Store, key: string, m: Message, now: int)
    requires ValidStore(s)
    requires Add(s, key, m, now).1.err.None?
    ensures key in Add(s, key, m, now).0.groups
    ensures var held := Add(s, key, m, now).0.groups[key].msgs;
      if Duplicate(s, key, m) then exists i :: 0 <= i < |held| && held[i].ID() == m.ID()
      else |held| > 0 && held[|held| - 1] == m
  {
    AddKeepsValid(s, key, m, now);
  }

  /** The classification of a member-cap refusal: permanent exactly when no lease is in
      force; a refused new group is always transient. */
  lemma RefusalClassification(s: Store, key: string, m: Message, now: int)
    requires Add(s, key, m, now).1.err.Some?
    ensures Is(Add(s, key, m, now).1.err.value, OverflowDropped)
    ensures IsPermanent(Add(s, key, m, now).1.err) <==> MemberRefused(s, key, m) && !s.groups[key].leased
  {
  }

  lemma ClaimKeepsValid(s: Store, key: string)
    requires ValidStore(s)
    ensures var (s', c) := ClaimGroup(s, key);
      && ValidStore(s')
      && (c.None? ==> s' == s)
      && (c.Some? ==> FenceHolds(s', c.value) && c.value.msgs != [] && c.value.key == key)
  {
    var (s', c) := ClaimGroup(s, key);
    assert s'.groups.Keys == s.groups.Keys;
  }

  /** Settling a claim in force removes exactly the claimed prefix; what arrived during the
      lease survives, in order, as an unleased group whose dedup set is its own ids. */
  lemma SettleKeepsValid(s: Store, c: Claim, now: int)
    requires ValidStore(s)
    ensures ValidStore(SettleGroup(s, c, now))
    ensures !FenceHolds(s, c) ==> SettleGroup(s, c, now) == s
    ensures FenceHolds(s, c) ==>
      var before, after := s.groups[c.key], SettleGroup(s, c, now).groups;
      && after.Keys - {c.key} == s.groups.Keys - {c.key}
      && (forall k :: k in after && k != c.key ==> after[k] == s.groups[k])
      && (c.key in after <==> Live(before) != [])
      && (c.key in after ==> after[c.key].msgs == Live(before) && !after[c.key].leased)
  {
    if FenceHolds(s, c) {
      var g := s.groups[c.key];
      var claimed, residual := g.msgs[..g.claimedLen], g.msgs[g.claimedLen..];
      assert g.msgs == claimed + residual;
      var s' := SettleGroup(s, c, now);
      if residual == [] {
        assert s'.groups.Keys == s.groups.Keys - {c.key};
      } else {
        IdsOfConcat(claimed, residual);
        forall x | x in IdsOf(residual) ensures x !in IdsOf(claimed) {
          var j :| 0 <= j < |residual| && residual[j].ID() != "" && residual[j].ID() == x;
          assert residual[j] == g.msgs[g.claimedLen + j];
          forall i | 0 <= i < |claimed| && claimed[i].ID() != "" ensures claimed[i].ID() != x {
            assert claimed[i] == g.msgs[i];
          }
        }
        assert g.ids - IdsOf(claimed) == IdsOf(residual);
        forall i, j | 0 <= i < j < |residual| && residual[i].ID() != ""
          ensures residual[i].ID() != residual[j].ID()
        {
          assert g.msgs[g.claimedLen + i] == residual[i] && g.msgs[g.claimedLen + j] == residual[j];
        }
        assert ValidGroup(s'.groups[c.key], s.maxMembers);
        assert s'.groups.Keys == s.groups.Keys;
      }
    }
  }

  /** Abandoning a claim in force gives every member back to the live set and deletes nothing;
      the epoch stays bumped, so the abandoned fence does not hold again in this incarnation of
      the key. */
  lemma AbandonKeepsValid(s: Store, c: Claim)
    requires ValidStore(s)
    ensures ValidStore(AbandonGroup(s, c))
    ensures AbandonGroup(s, c).groups.Keys == s.groups.Keys
    ensures forall k :: k in s.groups ==> AbandonGroup(s, c).groups[k].msgs == s.groups[k].msgs
    ensures !FenceHolds(AbandonGroup(s, c), c)
    ensures FenceHolds(s, c) ==> Live(AbandonGroup(s, c).groups[c.key]) == s.groups[c.key].msgs
  {
    if FenceHolds(s, c) {
      assert AbandonGroup(s, c).groups.Keys == s.groups.Keys;
    }
  }

  // ---- Fences of ended claims --------------------------------------------------------

  /** The claim has ended and the group it was on, or what it left, is still there. */
  predicate Stale(s: Store, c: Claim) {
    && c.key in s.groups
    && (s.groups[c.key].epoch > c.epoch || (s.groups[c.key].epoch == c.epoch && !s.groups[c.key].leased))
  }

  /** A settled or abandoned claim has ended. */
  lemma EndsStale(s: Store, c: Claim, now: int)
    requires ValidStore(s) && FenceHolds(s, c)
    ensures Stale(AbandonGroup(s, c), c)
    ensures c.key in SettleGroup(s, c, now).groups ==> Stale(SettleGroup(s, c, now), c)
  {
    SettleKeepsValid(s, c, now);
  }

  /** No operation brings an ended claim back, as long as its key stays: its fence does not hold,
      and settling or abandoning it changes nothing. */
  lemma StaleStays(s: Store, c: Claim, key: string, m: Message, d: Claim, now: int)
    requires ValidStore(s) && Stale(s, c)
    ensures !FenceHolds(s, c) && SettleGroup(s, c, now) == s && AbandonGroup(s, c) == s
    ensures Stale(Add(s, key, m, now).0, c) && Stale(ClaimGroup(s, key).0, c) && Stale(AbandonGroup(s, d), c)
    ensures c.key in SettleGroup(s, d, now).groups ==> Stale(SettleGroup(s, d, now), c)
  {
  }
}
