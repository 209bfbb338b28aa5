/** The read-only side of the tracker: the per-user statistics sent back on a
    "stats" mention, the reply to a mention, and the totals of the periodic
    report. */
module Queries {
  import opened SlackEvents
  import opened Aggregation

  datatype UserStats = UserStats(inboxCount: nat, savedCount: nat)

  /** The two counts read by `send_user_stats`; the user id of a mention may be
      missing, and a missing id is never a key. */
  function StatsFor(s: Store, u: Option<UserId>): UserStats {
    match u
    case None => UserStats(0, 0)
    case Some(id) => UserStats(InboxOf(s, id), |SavedOf(s, id)|)
  }

  /** A user the tracker has never seen gets zero for both counts. */
  lemma StatsOfUnknownUser(s: Store, u: UserId)
    requires u !in s.inbox && u !in s.saved
    ensures StatsFor(s, Some(u)) == UserStats(0, 0)
  {
  }

  /** On a consistent state the saved count equals the number of messages whose
      ledger entry names the user. */
  lemma SavedCountIsLedgerCount(s: Store, u: UserId)
    requires Consistent(s)
    ensures StatsFor(s, Some(u)).savedCount == |set m | m in s.ledger && u in s.ledger[m]|
  {
    assert SavedOf(s, u) == set m | m in s.ledger && u in s.ledger[m];
  }

  /** What the bot posts in answer to a mention. */
  datatype Reply =
    | StatsReply(user: Option<UserId>, channel: Option<ChannelId>, stats: UserStats)
    | HelpReply(channel: Option<ChannelId>)
    | NoReply

  function Respond(s: Store, c: Command): Reply {
    match c
    case ShowStats(u, ch) => StatsReply(u, ch, StatsFor(s, u))
    case ShowHelp(ch) => HelpReply(ch)
    case NoCommand => NoReply
  }

  /** The reply `process_event` produces: only mentions are answered. */
  function ReplyTo(s: Store, p: Payload): Reply {
    match Route(p)
    case OnAppMention(e) => Respond(s, MentionCommand(e))
    case _ => NoReply
  }

  /** A payload is answered only if it is a mention, and a mention changes no state. */
  lemma OnlyMentionsAreAnswered(s: Store, p: Payload, lookup: Lookup)
    ensures ReplyTo(s, p) != NoReply ==> Route(p).OnAppMention?
    ensures Route(p).OnAppMention? ==> Apply(s, p, lookup) == s
  {
  }

  // ---------------------------------------------------------------------------
  // Report totals

  /** The sum of the values of a map. */
  ghost function SumValues<K>(m: map<K, nat>): nat
    decreases |m|
  {
    if m == map[] then 0
    else
      var k :| k in m;
      m[k] + SumValues(m - {k})
  }

  /** The sum does not depend on which key is taken out first. */
  lemma {:induction false} SumValuesRemove<K>(m: map<K, nat>, k: K)
    requires k in m
    ensures SumValues(m) == m[k] + SumValues(m - {k})
    decreases |m|
  {
    var j :| j in m && SumValues(m) == m[j] + SumValues(m - {j});
    if j != k {
      SumValuesRemove(m - {j}, k);
      SumValuesRemove(m - {k}, j);
      assert m - {j} - {k} == m - {k} - {j};
    }
  }

  lemma SumValuesUpdate<K>(m: map<K, nat>, k: K, v: nat)
    ensures SumValues(m[k := v]) + (if k in m then m[k] else 0) == SumValues(m) + v
  {
    SumValuesRemove(m[k := v], k);
    if k in m {
      SumValuesRemove(m, k);
      assert m[k := v] - {k} == m - {k};
    } else {
      assert m[k := v] - {k} == m;
    }
  }

  /** The sum of all inbox counts. */
  ghost function TotalInbox(s: Store): nat {
    SumValues(s.inbox)
  }

  function SavedSizes(s: Store): map<UserId, nat> {
    map u | u in s.saved :: |s.saved[u]|
  }

  /** The sum of the sizes of all saved sets. */
  ghost function TotalSaved(s: Store): nat {
    SumValues(SavedSizes(s))
  }

  /** The report's total inbox grows by the number of member-list entries that
      are not the sender. */
  lemma {:induction false} FanOutTotalInbox(s: Store, sender: UserId, members: seq<UserId>)
    ensures TotalInbox(FanOut(s, sender, members)) == TotalInbox(s) + |members| - multiset(members)[sender]
    decreases |members|
  {
    if members != [] {
      var init, last := members[..|members| - 1], members[|members| - 1];
      FanOutTotalInbox(s, sender, init);
      assert members == init + [last];
      assert multiset(members) == multiset(init) + multiset{last};
      var t := FanOut(s, sender, init);
      if last != sender {
        SumValuesUpdate(t.inbox, last, InboxOf(t, last) + 1);
      }
    }
  }

  /** A message event changes the report's total inbox by the number of
      member-list entries other than the sender when it is counted, and not at
      all when it comes from a bot or has no sender. */
  lemma MessageTotalInbox(s: Store, e: Event, lookup: Lookup)
    ensures TotalInbox(ApplyMessage(s, e, lookup))
      == TotalInbox(s) + (if Truthy(e.user) && !Truthy(e.botId)
                          then |ChannelMembers(lookup)| - multiset(ChannelMembers(lookup))[e.user.value]
                          else 0)
  {
    if Truthy(e.user) && !Truthy(e.botId) {
      FanOutTotalInbox(s, e.user.value, ChannelMembers(lookup));
    }
  }

  /** Saving a message adds one to the report's saved total exactly when the
      user had not saved it yet; unsaving takes one off exactly when they had. */
  lemma ReactionTotalSaved(s: Store, e: Event)
    ensures IsSaveReaction(e) ==>
      TotalSaved(ApplyReactionAdded(s, e))
        == TotalSaved(s) + (if e.itemTs.value in SavedOf(s, e.user.value) then 0 else 1)
    ensures IsSaveReaction(e) ==>
      TotalSaved(ApplyReactionRemoved(s, e)) + (if e.itemTs.value in SavedOf(s, e.user.value) then 1 else 0)
        == TotalSaved(s)
    ensures !IsSaveReaction(e) ==>
      TotalSaved(ApplyReactionAdded(s, e)) == TotalSaved(ApplyReactionRemoved(s, e)) == TotalSaved(s)
  {
    if IsSaveReaction(e) {
      var u, m := e.user.value, e.itemTs.value;
      var added, removed := AddSave(s, u, m), RemoveSave(s, u, m);
      assert SavedSizes(added) == SavedSizes(s)[u := |SavedOf(s, u) + {m}|];
      assert SavedSizes(removed) == SavedSizes(s)[u := |SavedOf(s, u) - {m}|];
      SumValuesUpdate(SavedSizes(s), u, |SavedOf(s, u) + {m}|);
      SumValuesUpdate(SavedSizes(s), u, |SavedOf(s, u) - {m}|);
    }
  }

  /** The summary of `print_statistics`. With no active users it stops after
      saying so; otherwise it lists every active user's counts and the totals,
      and the averages it then prints divide by a positive count. */
  datatype Report =
    | NoActiveUsers
    | Summary(activeCount: nat, perUser: map<UserId, UserStats>, totalInbox: nat, totalSaved: nat)

  ghost function Statistics(s: Store): (r: Report)
    ensures r.NoActiveUsers? <==> s.active == {}
    ensures r.Summary? ==> r.activeCount == |s.active| > 0 && r.perUser.Keys == s.active
  {
    if s.active == {} then NoActiveUsers
    else Summary(|s.active|, map u | u in s.active :: StatsFor(s, Some(u)), TotalInbox(s), TotalSaved(s))
  }

  lemma SumOfTwo(a: UserId, b: UserId, x: nat, y: nat)
    requires a != b
    ensures SumValues(map[a := x, b := y]) == x + y
  {
    var m := map[a := x, b := y];
    SumValuesRemove(m, a);
    assert m - {a} == map[b := y];
    SumValuesRemove(map[b := y], b);
    assert map[b := y] - {b} == map[];
  }

  /** The state set up by the repository's statistics test. */
  function StatisticsFixture(): Store {
    Store(map["U123" := 10, "U456" := 15],
          map["U123" := {"msg1", "msg2"}, "U456" := {"msg3"}],
          map["msg1" := map["U123" := SaveMarker], "msg2" := map["U123" := SaveMarker],
              "msg3" := map["U456" := SaveMarker]],
          {"U123", "U456"})
  }

  lemma FixtureTotals()
    ensures TotalInbox(StatisticsFixture()) == 25 && TotalSaved(StatisticsFixture()) == 3
  {
    var s := StatisticsFixture();
    SumOfTwo("U123", "U456", 10, 15);
    assert |{"msg1", "msg2"}| == 2;
    assert SavedSizes(s) == map["U123" := 2, "U456" := 1];
    SumOfTwo("U123", "U456", 2, 1);
  }

  lemma FixturePerUser()
    ensures (map u | u in StatisticsFixture().active :: StatsFor(StatisticsFixture(), Some(u)))
         == map["U123" := UserStats(10, 2), "U456" := UserStats(15, 1)]
  {
    assert |{"msg1", "msg2"}| == 2;
  }

  /** The report of the repository's statistics test: two users with 10 and 15
      inbox messages and 2 and 1 saved messages give totals 25 and 3. */
  lemma StatisticsExample()
    ensures Statistics(StatisticsFixture())
         == Summary(2, map["U123" := UserStats(10, 2), "U456" := UserStats(15, 1)], 25, 3)
  {
    FixtureTotals();
    FixturePerUser();
    assert |StatisticsFixture().active| == 2;
  }
}
