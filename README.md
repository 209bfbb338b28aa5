# Slack message tracker: the aggregation core in Dafny

This project models the in-memory state machine of `SlackMessageTracker`, a bot that
listens to a Slack workspace's event stream. The bot keeps four pieces of state:

- `user_inbox_counts`: how many messages each user received from others in channels
  they belong to;
- `user_saved_messages`: the messages each user saved by reacting with `inbox_tray`;
- `message_reactions`: the reaction ledger, message → (user → reaction);
- `active_users`: every user who has received a counted message or saved a message with
  `inbox_tray`. A sender is not added by their own message, a mention adds nobody, and
  nobody is ever removed.

It updates this state on `message`, `reaction_added` and `reaction_removed` events. It
answers `app_mention` events that ask for "stats" or "help", and it periodically prints a
report with totals.

Files:

- `events.dfy` (module `SlackEvents`): the event shapes, and the routing of
  `process_event` by event type. It also has the case-insensitive keyword dispatch of
  `handle_app_mention`.
- `store.dfy` (module `Aggregation`): the state as a value `Store` and the effect of each
  handler as a function (`ApplyMessage`, `ApplyReactionAdded`, `ApplyReactionRemoved`,
  `Apply`). It defines the invariants (`Consistent`) and monotonicity (`Grows`), and
  proves that every handler keeps both.
- `queries.dfy` (module `Queries`): the per-user statistics of `send_user_stats`, the
  reply to a mention, and the totals of `print_statistics`, together with the totals'
  behaviour under each event.
- `tracker.dfy` (module `Tracker`): the class `SlackMessageTracker` with the four fields as
  mutable `map`/`set` fields. Each handler is a method whose `ensures` equates the new
  fields with the `Aggregation` function of the old ones, and preserves `Consistent` and
  `Grows`. The message handler keeps the source's loop over the member list, with its
  invariant.

The channel-membership REST call is an input of type `Lookup`: either the list of member
ids or `LookupFailed`. `get_channel_members` turns a failure into an empty list
(`ChannelMembers`). Python's `defaultdict` reads become get-with-default (`InboxOf`,
`SavedOf`, `LedgerOf`). The one place where the default dictionary leaves a visible entry,
`discard` on a user with no saved set, is kept: that user ends up with an empty set.
Python truthiness of optional event fields is `Truthy` (present and non-empty).

Two behaviours of the code that the model keeps:

- `handle_app_mention` does not check that the mention has a user or a channel. A stats
  request from a mention without a user yields counts 0/0, because the missing id is never
  a key.
- A member list that names a user twice increments that user twice, because the loop runs
  once per entry. The "+1 per member" property (`MessageFanOut`) is stated for lists
  without duplicates. `FanOutEffect` states the general per-occurrence count.

## Model

| member | source | states |
|---|---|---|
| SlackEvents.Route | slack_bot.py:64-76 | A payload goes to no handler exactly when it has no event, or the event's type is missing or not one of message, reaction_added, reaction_removed, app_mention. Otherwise it goes to the one handler registered for that type, with the payload's event. |
| SlackEvents.RouteDependsOnlyOnKind | slack_bot.py:66-76 | Routing depends only on the type field: two payloads whose types agree (a missing event counts as a missing type) go to the same handler kind, or both to none. |
| SlackEvents.MentionDispatch | slack_bot.py:140-143 | A mention yields stats for (user, channel) iff its lowercased text contains "stats" or "statistics". It yields help for the channel iff it has no stats keyword and contains "help". Otherwise it yields nothing. Exactly one outcome, and stats wins over help. |
| SlackEvents.MentionKeywordsIgnoreCase | slack_bot.py:138-142 | A text containing any capitalisation of "stats" or "statistics" asks for stats. A text containing any capitalisation of "help" asks for help or stats, never for nothing. |
| SlackEvents.MentionExamples | test_bot.py:190-212 | "<@BOT_ID> stats" yields stats for the mentioning user and channel. "<@BOT_ID> help" yields help for the channel. |
| Aggregation.FanOutEffect | slack_bot.py:84-92 | After the member loop, every member other than the sender has their count raised by their number of occurrences in the list and is active. The sender's count is unchanged. The active set grows by exactly the non-sender members. Saved sets and ledger are unchanged. |
| Aggregation.MessageFanOut | slack_bot.py:84-92 | For a user message from a non-bot sender and a list without duplicates, each member other than the sender gets exactly +1 and becomes active. The sender and non-members keep their count and their active status. |
| Aggregation.MessageIgnored | slack_bot.py:84 | A message with a bot_id, or without a user, changes nothing. |
| Aggregation.MembershipFailureIgnored | slack_bot.py:145-152 | A failed membership lookup counts as an empty member list, so the message changes nothing. |
| Aggregation.MessageExample | test_bot.py:26-47 | From the empty state, U1 posting in [U1, U2, U3] gives inbox {U2: 1, U3: 1}, active {U2, U3}, and U1 at 0. |
| Aggregation.ReactionAddedEffect | slack_bot.py:105-110 | An inbox_tray reaction with a user and a message id adds the message to the user's saved set. It records the user under the message in the ledger with inbox_tray, and makes the user active. Nothing else changes. |
| Aggregation.ReactionAddedIdempotent | slack_bot.py:107-110 | Delivering the same reaction_added event twice gives the same state as delivering it once. |
| Aggregation.ReactionIgnored | slack_bot.py:105-132 | A reaction event that is not inbox_tray, or lacks a user or message id, leaves the whole state unchanged, on add and on remove, in any state. |
| Aggregation.ReactionRemovedEffect | slack_bot.py:121-129 | Removing inbox_tray drops the message from the user's saved set (a no-op if absent) and the user from the message's ledger entry. It deletes the entry when it becomes empty. Other users' entries, other messages, inbox counts and active users are unchanged. |
| Aggregation.AddThenRemove | test_bot.py:79-100 | A save followed by its removal leaves the message out of the user's saved set and the user out of the message's ledger entry. The message key stays in the ledger only if another user still has it saved. |
| Aggregation.AddThenRemoveRestores | slack_bot.py:107-129 | On a consistent state, saving a message not yet saved and then unsaving it restores the saved sets and the ledger exactly. Only the user's activity (and an empty saved-set entry) remains. |
| Aggregation.EmptyConsistent | slack_bot.py:30-36 | The initial empty state satisfies all invariants. |
| Aggregation.FanOutKeepsInvariants | slack_bot.py:89-92 | The message loop keeps the invariants, never lowers a count and never deactivates a user. |
| Aggregation.AddSaveKeepsInvariants | slack_bot.py:108-110 | Saving keeps the invariants: the ledger matches the saved sets, there are no empty ledger entries, only inbox_tray is recorded, and active users cover all activity. It is also monotone. |
| Aggregation.RemoveSaveKeepsInvariants | slack_bot.py:124-129 | Unsaving keeps the same invariants, including pruning of empty ledger entries, and is monotone. |
| Aggregation.ApplyKeepsInvariants | slack_bot.py:64-132 | Every payload, whatever its type, keeps the invariants. Inbox counts never shrink and the active set never loses a member. |
| Aggregation.RunKeepsInvariants | slack_bot.py:64-76 | Any sequence of events from a consistent state (in particular the initial one) ends consistent and grown. |
| Queries.StatsOfUnknownUser | slack_bot.py:156-157 | A user with no inbox and no saved entry gets counts 0/0. |
| Queries.SavedCountIsLedgerCount | slack_bot.py:157 | On a consistent state, a user's saved count equals the number of ledger entries that name the user. |
| Queries.OnlyMentionsAreAnswered | slack_bot.py:75-76 | Only app_mention payloads produce a reply, and a mention changes no state. |
| Queries.FanOutTotalInbox | slack_bot.py:241 | After the member loop of a counted message (sender present, no bot_id), the report's total inbox is the old total plus the number of member-list entries that are not the sender. |
| Queries.MessageTotalInbox | slack_bot.py:84-92 | A message event raises the report's total inbox by the number of member-list entries that are not the sender when it has a sender and no bot_id, and leaves it unchanged otherwise (also when the lookup fails). |
| Queries.ReactionTotalSaved | slack_bot.py:242 | Saving raises the saved total by one exactly when the message was not yet saved by the user. Unsaving lowers it by one exactly when it was. Other reactions leave it unchanged. |
| Queries.Statistics | slack_bot.py:203-242 | The report says "no data" exactly when there are no active users. Otherwise its active count, the divisor of the averages, is positive, and it lists stats for exactly the active users. |
| Queries.StatisticsExample | test_bot.py:148-188 | Users with inbox 10/15 and saved 2/1 give per-user stats (10, 2) and (15, 1), and totals 25 and 3. |
| Tracker.SlackMessageTracker.constructor | slack_bot.py:22-36 | The tracker starts with all four structures empty, which is a consistent state. |
| Tracker.SlackMessageTracker.HandleMessageEvent | slack_bot.py:78-97 | The loop leaves the fields equal to ApplyMessage of the old fields, keeps the invariants, and is monotone. |
| Tracker.SlackMessageTracker.HandleReactionAdded | slack_bot.py:99-113 | The fields become ApplyReactionAdded of the old fields. The invariants and monotonicity are kept. |
| Tracker.SlackMessageTracker.HandleReactionRemoved | slack_bot.py:115-132 | The fields become ApplyReactionRemoved of the old fields. The invariants and monotonicity are kept. |
| Tracker.SlackMessageTracker.SendUserStats | slack_bot.py:154-157 | The reply carries inbox.get(user, 0) and the size of saved.get(user, {}), as StatsFor gives them. |
| Tracker.SlackMessageTracker.HandleAppMention | slack_bot.py:134-143 | The reply is the stats reply, the help reply or none, as MentionCommand decides. |
| Tracker.SlackMessageTracker.ProcessEvent | slack_bot.py:64-76 | Exactly one handler runs for the four known types, and other payloads are ignored. The new fields are Apply of the old ones, and the reply is ReplyTo. The invariants and monotonicity are kept. |

## Left out

- Socket-mode transport, acknowledgement and the REST clients (`start`, `stop`, `handle_socket_mode_request`, `conversations_members`, `chat_postEphemeral`, `chat_postMessage`, `users_info`): network I/O. Membership is the `Lookup` input. A post is the returned `Reply`, and a failure to post is not modelled.
- Message texts, the help text, the formatting of stats and report lines, console printing and the report timestamp: formatting and I/O.
- The per-user averages of the report: floating-point division. Only the guard that makes the divisor positive is modelled.
- Display names in the report (`users_info`) and the order of its per-user lines (sorted by id): the report's per-user part is a map from active user to stats.
- The "recent saved messages" listing of the report: it takes the last three elements of a Python set, whose iteration order is unspecified.
- `user_reminders`: never read or written.
- Logging.
- `main`: credential checks and the five-second reporting loop.
- Concurrency: events are applied one at a time, and the report reads a state between two events. The model does not capture how the socket-mode handlers interleave with the reporting loop in `main`. In particular it does not capture `print_statistics` iterating over `active_users` while a handler adds to it, which Python can reject with a "set changed size during iteration" error that `main` catches before stopping the bot (slack_bot.py:212, 279-281).
- Event fields that are present but hold a value that is not a string (for example `"text": null`): an `Event` field is either absent or a string. In the source, `text.lower()` then raises, and `handle_socket_mode_request` swallows the error (slack_bot.py:61-62, 140). No property stated here depends on such events.
- LowerChar: lowercases ASCII letters only, not the full Unicode case mapping of Python's `str.lower()`.
- Statistics: the report totals are ghost functions (sums over maps), so the report is a specification function, not an executable method.
- The temporary empty ledger entry that the default dictionary creates when an unsave reads a message with no entry. The source deletes it again straight away, so it never survives a handler.
