/** `SlackMessageTracker`: the object that owns the aggregation state and whose
    event handlers update it in place. Each handler is proved to leave the
    fields exactly as the matching function of module Aggregation says, to keep
    the invariants and never to lower a count or deactivate a user. */
module Tracker {
  import opened SlackEvents
  import opened Aggregation
  import opened Queries

  class SlackMessageTracker {
    var userInboxCounts: map<UserId, nat>
    var userSavedMessages: map<UserId, set<MessageId>>
    var messageReactions: map<MessageId, map<UserId, string>>
    var activeUsers: set<UserId>

    /** The fields as a value of the specification. */
    function Model(): Store
      reads this
    {
      Store(userInboxCounts, userSavedMessages, messageReactions, activeUsers)
    }

    ghost predicate Valid()
      reads this
    {
      Consistent(Model())
    }

    constructor ()
      ensures Model() == EmptyStore() && Valid()
    {
      userInboxCounts := map[];
      userSavedMessages := map[];
      messageReactions := map[];
      activeUsers := {};
      new;
      EmptyConsistent();
    }

    /** `handle_message_event`; `lookup` is what the membership call answers. */
    method HandleMessageEvent(event: Event, lookup: Lookup)
      modifies this
      ensures Model() == ApplyMessage(old(Model()), event, lookup)
      ensures old(Valid()) ==> Valid() && Grows(old(Model()), Model())
    {
      if Truthy(event.user) && !Truthy(event.botId) {
        var sender := event.user.value;
        var members := ChannelMembers(lookup);
        for i := 0 to |members|
          invariant Model() == FanOut(old(Model()), sender, members[..i])
        {
          var member := members[i];
          assert members[..i + 1][..i] == members[..i];
          if member != sender {
            var count := if member in userInboxCounts then userInboxCounts[member] else 0;
            userInboxCounts := userInboxCounts[member := count + 1];
            activeUsers := activeUsers + {member};
          }
        }
        assert members[..|members|] == members;
        if old(Valid()) {
          FanOutKeepsInvariants(old(Model()), sender, members);
        }
      }
    }

    /** `handle_reaction_added` */
    method HandleReactionAdded(event: Event)
      modifies this
      ensures Model() == ApplyReactionAdded(old(Model()), event)
      ensures old(Valid()) ==> Valid() && Grows(old(Model()), Model())
    {
      if Truthy(event.user) && Truthy(event.itemTs) {
        if event.reaction == Some(SaveMarker) {
          var user, message := event.user.value, event.itemTs.value;
          var saved := if user in userSavedMessages then userSavedMessages[user] else {};
          userSavedMessages := userSavedMessages[user := saved + {message}];
          var entry := if message in messageReactions then messageReactions[message] else map[];
          messageReactions := messageReactions[message := entry[user := event.reaction.value]];
          activeUsers := activeUsers + {user};
          if old(Valid()) {
            AddSaveKeepsInvariants(old(Model()), user, message);
          }
        }
      }
    }

    /** `handle_reaction_removed` */
    method HandleReactionRemoved(event: Event)
      modifies this
      ensures Model() == ApplyReactionRemoved(old(Model()), event)
      ensures old(Valid()) ==> Valid() && Grows(old(Model()), Model())
    {
      if Truthy(event.user) && Truthy(event.itemTs) {
        if event.reaction == Some(SaveMarker) {
          var user, message := event.user.value, event.itemTs.value;
          var saved := if user in userSavedMessages then userSavedMessages[user] else {};
          userSavedMessages := userSavedMessages[user := saved - {message}];
          var entry := if message in messageReactions then messageReactions[message] else map[];
          if user in entry {
            entry := entry - {user};
          } else {
            assert entry - {user} == entry;
          }
          if entry == map[] {
            messageReactions := messageReactions - {message};
          } else {
            messageReactions := messageReactions[message := entry];
          }
          if old(Valid()) {
            RemoveSaveKeepsInvariants(old(Model()), user, message);
          }
        }
      }
    }

    /** `send_user_stats`: the reply carries the user's two counts. The body
        reads the fields with the source's get-with-default, and the contract
        ties that to `StatsFor`. */
    method SendUserStats(user: Option<UserId>, channel: Option<ChannelId>) returns (reply: Reply)
      ensures reply == Respond(Model(), ShowStats(user, channel))
    {
      var inboxCount := if user.Some? && user.value in userInboxCounts then userInboxCounts[user.value] else 0;
      var saved := if user.Some? && user.value in userSavedMessages then userSavedMessages[user.value] else {};
      reply := StatsReply(user, channel, UserStats(inboxCount, |saved|));
    }

    /** `handle_app_mention` */
    method HandleAppMention(event: Event) returns (reply: Reply)
      ensures reply == Respond(Model(), MentionCommand(event))
    {
      if AsksForStats(event) {
        reply := SendUserStats(event.user, event.channel);
      } else if AsksForHelp(event) {
        reply := HelpReply(event.channel);
      } else {
        reply := NoReply;
      }
    }

    /** `process_event`: exactly one handler runs for the four known event
        types, and any other payload is ignored. */
    method ProcessEvent(payload: Payload, lookup: Lookup) returns (reply: Reply)
      modifies this
      ensures Model() == Apply(old(Model()), payload, lookup)
      ensures reply == ReplyTo(old(Model()), payload)
      ensures old(Valid()) ==> Valid() && Grows(old(Model()), Model())
    {
      reply := NoReply;
      match Route(payload)
      case OnMessage(e) => HandleMessageEvent(e, lookup);
      case OnReactionAdded(e) => HandleReactionAdded(e);
      case OnReactionRemoved(e) => HandleReactionRemoved(e);
      case OnAppMention(e) => reply := HandleAppMention(e);
      case Ignored =>
    }
  }
}
