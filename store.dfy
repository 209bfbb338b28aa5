/** The aggregation state of the tracker as a value, the effect of each event
    handler on it, the invariants the handlers keep and the properties they
    promise. The class in tracker.dfy is proved to update its fields exactly as
    the functions here say. */
module Aggregation {
  import opened SlackEvents

  /** The one reaction that marks a message as saved. */
  const SaveMarker: string := "inbox_tray"

  /** `user_inbox_counts`, `user_saved_messages`, `message_reactions` and
      `active_users`. The dictionaries are plain maps; a read of a missing key
      goes through InboxOf, SavedOf or LedgerOf, which give the default. */
  datatype Store = Store(
    inbox: map<UserId, nat>,
    saved: map<UserId, set<MessageId>>,
    ledger: map<MessageId, map<UserId, string>>,
    active: set<UserId>)

  function EmptyStore(): Store {
    Store(map[], map[], map[], {})
  }

  function InboxOf(s: Store, u: UserId): nat {
    if u in s.inbox then s.inbox[u] else 0
  }

  function SavedOf(s: Store, u: UserId): set<MessageId> {
    if u in s.saved then s.saved[u] else {}
  }

  function LedgerOf(s: Store, m: MessageId): map<UserId, string> {
    if m in s.ledger then s.ledger[m] else map[]
  }

  /** The answer of the channel-membership call: the member list, or a failure. */
  datatype Lookup = Members(ids: seq<UserId>) | LookupFailed

  /** `get_channel_members`: a failed call reads as an empty member list. */
  function ChannelMembers(l: Lookup): seq<UserId> {
    if l.Members? then l.ids else []
  }

  /** The loop of `handle_message_event` after it has visited `members`: every
      visited member other than the sender gets one more inbox message and
      becomes active. */
  function FanOut(s: Store, sender: UserId, members: seq<UserId>): Store
    decreases |members|
  {
    if members == [] then s
    else
      var t := FanOut(s, sender, members[..|members| - 1]);
      var v := members[|members| - 1];
      if v == sender then t
      else t.(inbox := t.inbox[v := InboxOf(t, v) + 1], active := t.active + {v})
  }

  /** `handle_message_event`: messages without a sender or from a bot are ignored. */
  function ApplyMessage(s: Store, e: Event, lookup: Lookup): Store {
    if Truthy(e.user) && !Truthy(e.botId) then FanOut(s, e.user.value, ChannelMembers(lookup))
    else s
  }

  /** The three updates of a saving reaction. */
  function AddSave(s: Store, u: UserId, m: MessageId): Store {
    s.(saved := s.saved[u := SavedOf(s, u) + {m}],
       ledger := s.ledger[m := LedgerOf(s, m)[u := SaveMarker]],
       active := s.active + {u})
  }

  /** The updates of an unsaving reaction. Discarding from the user's set goes
      through the default dictionary, so the user's entry exists afterwards;
      the message's ledger entry is deleted once nobody is left in it. */
  function RemoveSave(s: Store, u: UserId, m: MessageId): Store {
    var rest := LedgerOf(s, m) - {u};
    s.(saved := s.saved[u := SavedOf(s, u) - {m}],
       ledger := if rest == map[] then s.ledger - {m} else s.ledger[m := rest])
  }

  /** A reaction event that the handlers act on: it has a user and a message id
      and its reaction is the save marker. */
  predicate IsSaveReaction(e: Event) {
    Truthy(e.user) && Truthy(e.itemTs) && e.reaction == Some(SaveMarker)
  }

  /** `handle_reaction_added` */
  function ApplyReactionAdded(s: Store, e: Event): Store {
    if IsSaveReaction(e) then AddSave(s, e.user.value, e.itemTs.value) else s
  }

  /** `handle_reaction_removed` */
  function ApplyReactionRemoved(s: Store, e: Event): Store {
    if IsSaveReaction(e) then RemoveSave(s, e.user.value, e.itemTs.value) else s
  }

  /** The state change of `process_event`; a mention only reads the state. */
  function Apply(s: Store, p: Payload, lookup: Lookup): Store {
    match Route(p)
    case OnMessage(e) => ApplyMessage(s, e, lookup)
    case OnReactionAdded(e) => ApplyReactionAdded(s, e)
    case OnReactionRemoved(e) => ApplyReactionRemoved(s, e)
    case OnAppMention(_) => s
    case Ignored => s
  }

  /** One delivered payload together with what the membership call would answer. */
  datatype Step = Step(payload: Payload, lookup: Lookup)

  function Run(s: Store, steps: seq<Step>): Store
    decreases |steps|
  {
    if steps == [] then s else Run(Apply(s, steps[0].payload, steps[0].lookup), steps[1..])
  }

  // ---------------------------------------------------------------------------
  // Invariants

  /** A user is in a message's ledger entry exactly when the message is in the
      user's saved set. */
  ghost predicate LedgerMatchesSaved(s: Store) {
    && (forall m, u | m in s.ledger && u in s.ledger[m] :: u in s.saved && m in s.saved[u])
    && (forall u, m | u in s.saved && m in s.saved[u] :: m in s.ledger && u in s.ledger[m])
  }

  /** Empty per-message entries are pruned. */
  ghost predicate NoEmptyLedgerEntry(s: Store) {
    forall m | m in s.ledger :: s.ledger[m] != map[]
  }

  /** Only the save marker is ever recorded. */
  ghost predicate LedgerHoldsSaveMarker(s: Store) {
    forall m, u | m in s.ledger && u in s.ledger[m] :: s.ledger[m][u] == SaveMarker
  }

  /** Everyone with inbox messages or saved messages is active. */
  ghost predicate ActiveCoversActivity(s: Store) {
    && (forall u | u in s.inbox && s.inbox[u] > 0 :: u in s.active)
    && (forall u | u in s.saved && s.saved[u] != {} :: u in s.active)
  }

  ghost predicate Consistent(s: Store) {
    LedgerMatchesSaved(s) && NoEmptyLedgerEntry(s) && LedgerHoldsSaveMarker(s) && ActiveCoversActivity(s)
  }

  /** Inbox counts never shrink (nor disappear) and nobody stops being active. */
  ghost predicate Grows(s: Store, t: Store) {
    && (forall u | u in s.inbox :: u in t.inbox && s.inbox[u] <= t.inbox[u])
    && s.active <= t.active
  }

  lemma GrowsTransitive(s: Store, t: Store, w: Store)
    requires Grows(s, t) && Grows(t, w)
    ensures Grows(s, w)
  {
  }

  // ---------------------------------------------------------------------------
  // Messages

  /** Counting occurrences: members listed twice are counted twice, as the loop does. */
  lemma {:induction false} FanOutEffect(s: Store, sender: UserId, members: seq<UserId>)
    ensures var t := FanOut(s, sender, members);
      && t.saved == s.saved && t.ledger == s.ledger
      && t.active == s.active + (set v | v in members && v != sender)
      && t.inbox.Keys == s.inbox.Keys + (set v | v in members && v != sender)
      && InboxOf(t, sender) == InboxOf(s, sender)
      && (forall v | v != sender :: InboxOf(t, v) == InboxOf(s, v) + multiset(members)[v])
    decreases |members|
  {
    if members != [] {
      var init, last := members[..|members| - 1], members[|members| - 1];
      FanOutEffect(s, sender, init);
      assert members == init + [last];
      assert multiset(members) == multiset(init) + multiset{last};
      assert (set v | v in members && v != sender)
          == (set v | v in init && v != sender) + (if last == sender then {} else {last});
    }
  }

  predicate NoDuplicates(xs: seq<UserId>) {
    forall i, j | 0 <= i < j < |xs| :: xs[i] != xs[j]
  }

  lemma {:induction false} DistinctMultiplicity(xs: seq<UserId>, v: UserId)
    requires NoDuplicates(xs)
    ensures multiset(xs)[v] == if v in xs then 1 else 0
    decreases |xs|
  {
    if xs != [] {
      assert xs == [xs[0]] + xs[1..];
      assert NoDuplicates(xs[1..]) by {
        forall i, j | 0 <= i < j < |xs[1..]| ensures xs[1..][i] != xs[1..][j] {
          assert xs[1..][i] == xs[i + 1] && xs[1..][j] == xs[j + 1];
        }
      }
      DistinctMultiplicity(xs[1..], v);
      assert xs[0] !in xs[1..] by {
        forall k | 0 <= k < |xs[1..]| ensures xs[1..][k] != xs[0] {
          assert xs[1..][k] == xs[k + 1];
        }
      }
    }
  }

  /** A message from `u` to a channel whose members are listed once each: each
      member other than `u` receives exactly one more inbox message and becomes
      active; the sender and non-members keep their count and their activity. */
  lemma MessageFanOut(s: Store, e: Event, members: seq<UserId>)
    requires Truthy(e.user) && !Truthy(e.botId) && NoDuplicates(members)
    ensures var t := ApplyMessage(s, e, Members(members));
      && (forall v | v in members && v != e.user.value :: InboxOf(t, v) == InboxOf(s, v) + 1 && v in t.active)
      && (forall v | v !in members || v == e.user.value ::
            InboxOf(t, v) == InboxOf(s, v) && (v in t.active <==> v in s.active))
      && t.saved == s.saved && t.ledger == s.ledger
  {
    var sender := e.user.value;
    FanOutEffect(s, sender, members);
    forall v | v != sender ensures multiset(members)[v] == if v in members then 1 else 0 {
      DistinctMultiplicity(members, v);
    }
  }

  /** A bot message and a message without a sender leave the state unchanged. */
  lemma MessageIgnored(s: Store, e: Event, lookup: Lookup)
    requires !Truthy(e.user) || Truthy(e.botId)
    ensures ApplyMessage(s, e, lookup) == s
  {
  }

  /** A failed membership lookup reads as an empty channel: nothing changes. */
  lemma MembershipFailureIgnored(s: Store, e: Event)
    ensures ApplyMessage(s, e, LookupFailed) == s
  {
  }

  /** The scenario of the repository's message test, from the empty state. */
  lemma MessageExample()
    ensures var e := Event(Some("message"), Some("U1"), Some("C1"), Some("1.0"), None, None, None, None);
      var t := ApplyMessage(EmptyStore(), e, Members(["U1", "U2", "U3"]));
      t.inbox == map["U2" := 1, "U3" := 1] && t.active == {"U2", "U3"} && InboxOf(t, "U1") == 0
  {
    var s0 := EmptyStore();
    var one: seq<UserId>, two: seq<UserId>, three: seq<UserId> := ["U1"], ["U1", "U2"], ["U1", "U2", "U3"];
    assert one[..0] == [] && two[..1] == one && three[..2] == two;
    assert FanOut(s0, "U1", one) == s0;
    var s2 := FanOut(s0, "U1", two);
    assert s2 == s0.(inbox := map["U2" := 1], active := {"U2"});
    assert FanOut(s0, "U1", three) == s2.(inbox := s2.inbox["U3" := 1], active := s2.active + {"U3"});
  }

  // ---------------------------------------------------------------------------
  // Reactions

  /** Adding the save marker records the message for the user on both sides and
      makes the user active; nothing else changes. */
  lemma ReactionAddedEffect(s: Store, e: Event)
    requires IsSaveReaction(e)
    ensures var t := ApplyReactionAdded(s, e); var u, m := e.user.value, e.itemTs.value;
      && SavedOf(t, u) == SavedOf(s, u) + {m}
      && m in t.ledger && LedgerOf(t, m) == LedgerOf(s, m)[u := SaveMarker]
      && t.active == s.active + {u}
      && t.inbox == s.inbox && t.saved - {u} == s.saved - {u} && t.ledger - {m} == s.ledger - {m}
  {
  }

  /** Delivering the same save twice has the effect of delivering it once. */
  lemma ReactionAddedIdempotent(s: Store, e: Event)
    ensures ApplyReactionAdded(ApplyReactionAdded(s, e), e) == ApplyReactionAdded(s, e)
  {
    if IsSaveReaction(e) {
      var u, m := e.user.value, e.itemTs.value;
      var t := AddSave(s, u, m);
      var w := AddSave(t, u, m);
      assert w.saved == t.saved;
      assert LedgerOf(t, m) == LedgerOf(s, m)[u := SaveMarker];
      assert LedgerOf(t, m)[u := SaveMarker] == LedgerOf(t, m);
      assert w.ledger == t.ledger;
    }
  }

  /** Reactions other than the save marker, and reactions missing a user or a
      message id, change nothing, whoever else has saved the message. */
  lemma ReactionIgnored(s: Store, e: Event)
    requires !IsSaveReaction(e)
    ensures ApplyReactionAdded(s, e) == s && ApplyReactionRemoved(s, e) == s
  {
  }

  /** Removing the save marker drops the message from the user's set and the
      user from the message's entry, deleting the entry once it is empty;
      other users' entries, inbox counts and active users stay as they were. */
  lemma ReactionRemovedEffect(s: Store, e: Event)
    requires IsSaveReaction(e)
    ensures var t := ApplyReactionRemoved(s, e); var u, m := e.user.value, e.itemTs.value;
      && SavedOf(t, u) == SavedOf(s, u) - {m}
      && LedgerOf(t, m) == LedgerOf(s, m) - {u}
      && (m in t.ledger <==> LedgerOf(s, m) - {u} != map[])
      && t.active == s.active && t.inbox == s.inbox
      && t.saved - {u} == s.saved - {u} && t.ledger - {m} == s.ledger - {m}
  {
  }

  /** A save followed by its removal leaves the message neither saved by the
      user nor in the ledger under the user, and the ledger has no entry for
      the message unless another user still saves it. */
  lemma AddThenRemove(s: Store, e: Event)
    requires IsSaveReaction(e)
    ensures var t := ApplyReactionRemoved(ApplyReactionAdded(s, e), e); var u, m := e.user.value, e.itemTs.value;
      && m !in SavedOf(t, u) && u !in LedgerOf(t, m)
      && (m in t.ledger <==> LedgerOf(s, m) - {u} != map[])
  {
    var u, m := e.user.value, e.itemTs.value;
    assert LedgerOf(s, m)[u := SaveMarker] - {u} == LedgerOf(s, m) - {u};
  }

  /** On a consistent state, saving a message the user had not saved and then
      unsaving it restores the saved sets and the ledger; only the user's
      activity (and an empty saved-set entry) remain. */
  lemma {:induction false} AddThenRemoveRestores(s: Store, e: Event)
    requires Consistent(s) && IsSaveReaction(e) && e.itemTs.value !in SavedOf(s, e.user.value)
    ensures var u := e.user.value;
      ApplyReactionRemoved(ApplyReactionAdded(s, e), e)
        == s.(saved := s.saved[u := SavedOf(s, u)], active := s.active + {u})
  {
    var u, m := e.user.value, e.itemTs.value;
    assert u !in LedgerOf(s, m);
    var rest := LedgerOf(s, m)[u := SaveMarker] - {u};
    assert rest == LedgerOf(s, m);
    var t := RemoveSave(AddSave(s, u, m), u, m);
    if rest == map[] {
      assert m !in s.ledger;
      assert t.ledger == s.ledger;
    } else {
      assert t.ledger == s.ledger;
    }
    assert SavedOf(s, u) + {m} - {m} == SavedOf(s, u);
  }

  // ---------------------------------------------------------------------------
  // Invariants are preserved

  lemma EmptyConsistent()
    ensures Consistent(EmptyStore())
  {
  }

  lemma FanOutKeepsInvariants(s: Store, sender: UserId, members: seq<UserId>)
    requires Consistent(s)
    ensures Consistent(FanOut(s, sender, members)) && Grows(s, FanOut(s, sender, members))
  {
    var t := FanOut(s, sender, members);
    FanOutEffect(s, sender, members);
    forall u | u in s.inbox ensures s.inbox[u] <= t.inbox[u] {
      assert InboxOf(s, u) == s.inbox[u] && InboxOf(t, u) == t.inbox[u];
    }
    forall u | u in t.inbox && t.inbox[u] > 0 ensures u in t.active {
      assert InboxOf(t, u) == t.inbox[u];
      if u !in members || u == sender {
        assert u in s.inbox;
      }
    }
  }

  lemma AddSaveKeepsInvariants(s: Store, u: UserId, m: MessageId)
    requires Consistent(s)
    ensures Consistent(AddSave(s, u, m)) && Grows(s, AddSave(s, u, m))
  {
    var t := AddSave(s, u, m);
    assert u in t.ledger[m];
    forall m', u' | m' in t.ledger && u' in t.ledger[m'] ensures u' in t.saved && m' in t.saved[u'] {
      if m' != m && u' != u {
        assert u' in s.ledger[m'];
      }
    }
  }

  lemma RemoveSaveKeepsInvariants(s: Store, u: UserId, m: MessageId)
    requires Consistent(s)
    ensures Consistent(RemoveSave(s, u, m)) && Grows(s, RemoveSave(s, u, m))
  {
    var t := RemoveSave(s, u, m);
    forall u', m' | u' in t.saved && m' in t.saved[u'] ensures m' in t.ledger && u' in t.ledger[m'] {
      assert m' in s.saved[u'];
      assert m' in s.ledger && u' in s.ledger[m'];
      if m' == m {
        assert u' != u;
        assert u' in LedgerOf(s, m) - {u};
      }
    }
  }

  /** Every event keeps the invariants, never lowers an inbox count and never
      makes a user inactive. */
  lemma ApplyKeepsInvariants(s: Store, p: Payload, lookup: Lookup)
    requires Consistent(s)
    ensures Consistent(Apply(s, p, lookup)) && Grows(s, Apply(s, p, lookup))
  {
    match Route(p)
    case OnMessage(e) =>
      if Truthy(e.user) && !Truthy(e.botId) {
        FanOutKeepsInvariants(s, e.user.value, ChannelMembers(lookup));
      }
    case OnReactionAdded(e) =>
      if IsSaveReaction(e) {
        AddSaveKeepsInvariants(s, e.user.value, e.itemTs.value);
      }
    case OnReactionRemoved(e) =>
      if IsSaveReaction(e) {
        RemoveSaveKeepsInvariants(s, e.user.value, e.itemTs.value);
      }
    case OnAppMention(_) =>
    case Ignored =>
  }

  /** Any stream of events, from any consistent state and in particular from the
      empty state the tracker starts in, ends in a consistent state that has
      grown from the start. */
  lemma {:induction false} RunKeepsInvariants(s: Store, steps: seq<Step>)
    requires Consistent(s)
    ensures Consistent(Run(s, steps)) && Grows(s, Run(s, steps))
    decreases |steps|
  {
    if steps != [] {
      var next := Apply(s, steps[0].payload, steps[0].lookup);
      ApplyKeepsInvariants(s, steps[0].payload, steps[0].lookup);
      RunKeepsInvariants(next, steps[1..]);
      GrowsTransitive(s, next, Run(next, steps[1..]));
    }
  }
}
