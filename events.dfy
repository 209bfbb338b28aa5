/** Event shapes delivered by the platform, the routing done by `process_event`
    and the keyword dispatch done by `handle_app_mention`. Everything here is pure. */
module SlackEvents {

  type UserId = string
  type ChannelId = string
  type MessageId = string

  datatype Option<T> = None | Some(value: T)

  /** Python truthiness of an optional string field: present and non-empty. */
  predicate Truthy(o: Option<string>) {
    o.Some? && o.value != ""
  }

  /** The fields of an event dictionary that the tracker reads. A field that is
      absent from the dictionary is `None`; `itemTs` is `event["item"]["ts"]`
      (absent when either level is missing). */
  datatype Event = Event(
    kind: Option<string>,       // "type"
    user: Option<UserId>,
    channel: Option<ChannelId>,
    ts: Option<MessageId>,
    botId: Option<string>,      // "bot_id"
    itemTs: Option<MessageId>,
    reaction: Option<string>,
    text: Option<string>)

  /** An events-API payload; `event` is `None` when the key is missing. */
  datatype Payload = Payload(event: Option<Event>)

  /** The handler `process_event` hands an event to. */
  datatype Handler =
    | OnMessage(e: Event)
    | OnReactionAdded(e: Event)
    | OnReactionRemoved(e: Event)
    | OnAppMention(e: Event)
    | Ignored

  const HandledKinds: set<string> := {"message", "reaction_added", "reaction_removed", "app_mention"}

  /** The event type string each handler is registered for. */
  function KindName(h: Handler): string
    requires !h.Ignored?
  {
    match h
    case OnMessage(_) => "message"
    case OnReactionAdded(_) => "reaction_added"
    case OnReactionRemoved(_) => "reaction_removed"
    case OnAppMention(_) => "app_mention"
  }

  /** `process_event`: route by the event's type; a missing event is an empty
      dictionary, whose type is missing too. */
  function Route(p: Payload): (h: Handler)
    ensures h.Ignored? <==>
      p.event.None? || p.event.value.kind.None? || p.event.value.kind.value !in HandledKinds
    ensures !h.Ignored? ==> h.e == p.event.value && p.event.value.kind == Some(KindName(h))
  {
    match p.event
    case None => Ignored
    case Some(e) =>
      if e.kind == Some("message") then OnMessage(e)
      else if e.kind == Some("reaction_added") then OnReactionAdded(e)
      else if e.kind == Some("reaction_removed") then OnReactionRemoved(e)
      else if e.kind == Some("app_mention") then OnAppMention(e)
      else Ignored
  }

  /** The type field `process_event` reads; a missing event has no type. */
  function KindOf(p: Payload): Option<string> {
    if p.event.Some? then p.event.value.kind else None
  }

  /** Two payloads whose type fields agree are routed to the same handler
      kind: routing depends on nothing but the type field. */
  lemma RouteDependsOnlyOnKind(p: Payload, q: Payload)
    requires KindOf(p) == KindOf(q)
    ensures Route(p).Ignored? == Route(q).Ignored?
    ensures !Route(p).Ignored? ==> KindName(Route(p)) == KindName(Route(q))
  {
  }

  /** `str.lower()` restricted to ASCII letters. */
  function LowerChar(c: char): char {
    if 'A' <= c <= 'Z' then (c as int - 'A' as int + 'a' as int) as char else c
  }

  function Lower(s: string): string {
    seq(|s|, i requires 0 <= i < |s| => LowerChar(s[i]))
  }

  /** Python's `p in s` for strings: `p` occurs as a contiguous substring of `s`. */
  predicate Contains(s: string, p: string) {
    exists i | 0 <= i <= |s| :: p <= s[i..]
  }

  /** What a mention asks the bot to do. */
  datatype Command =
    | ShowStats(user: Option<UserId>, channel: Option<ChannelId>)
    | ShowHelp(channel: Option<ChannelId>)
    | NoCommand

  /** The lowercased mention text; a missing text is the empty string. */
  function MentionText(e: Event): string {
    Lower(if e.text.Some? then e.text.value else "")
  }

  predicate AsksForStats(e: Event) {
    Contains(MentionText(e), "stats") || Contains(MentionText(e), "statistics")
  }

  predicate AsksForHelp(e: Event) {
    Contains(MentionText(e), "help")
  }

  /** `handle_app_mention`: stats is checked first, then help; otherwise nothing. */
  function MentionCommand(e: Event): Command {
    if AsksForStats(e) then ShowStats(e.user, e.channel)
    else if AsksForHelp(e) then ShowHelp(e.channel)
    else NoCommand
  }

  /** Exactly one action per mention, and the stats keywords win over "help". */
  lemma MentionDispatch(e: Event)
    ensures MentionCommand(e) == ShowStats(e.user, e.channel) <==> AsksForStats(e)
    ensures MentionCommand(e) == ShowHelp(e.channel) <==> !AsksForStats(e) && AsksForHelp(e)
    ensures MentionCommand(e) == NoCommand <==> !AsksForStats(e) && !AsksForHelp(e)
  {
  }

  /** Lowercasing preserves substring occurrence. */
  lemma {:induction false} ContainsLower(s: string, p: string)
    requires Contains(s, p)
    ensures Contains(Lower(s), Lower(p))
  {
    var i :| 0 <= i <= |s| && p <= s[i..];
    assert Lower(p) <= Lower(s)[i..] by {
      forall j | 0 <= j < |p|
        ensures Lower(p)[j] == Lower(s)[i..][j]
      {
        assert p[j] == s[i + j];
      }
    }
  }

  /** Keyword matching is case-insensitive: a mention whose text contains any
      capitalisation of "stats" or "statistics" asks for stats, and one that
      contains any capitalisation of "help" asks for help. */
  lemma MentionKeywordsIgnoreCase(e: Event, word: string)
    requires e.text.Some? && Contains(e.text.value, word)
    ensures Lower(word) == "stats" || Lower(word) == "statistics" ==> MentionCommand(e).ShowStats?
    ensures Lower(word) == "help" ==> AsksForHelp(e) && !MentionCommand(e).NoCommand?
  {
    ContainsLower(e.text.value, word);
  }

  /** The two mentions exercised by the repository's tests. */
  lemma MentionExamples(u: UserId, c: ChannelId)
    ensures MentionCommand(Event(Some("app_mention"), Some(u), Some(c), None, None, None, None,
                                 Some("<@BOT_ID> stats"))) == ShowStats(Some(u), Some(c))
    ensures MentionCommand(Event(Some("app_mention"), Some(u), Some(c), None, None, None, None,
                                 Some("<@BOT_ID> help"))) == ShowHelp(Some(c))
  {
    var stats := Lower("<@BOT_ID> stats");
    assert "stats" <= stats[10..];
    var help := Lower("<@BOT_ID> help");
    assert "help" <= help[10..];
    assert forall k | 0 <= k < |help| :: help[k] != 's';
    assert !Contains(help, "stats") && !Contains(help, "statistics") by {
      forall i | 0 <= i <= |help| ensures !("stats" <= help[i..]) && !("statistics" <= help[i..]) {
        if i < |help| {
          assert help[i..][0] == help[i];
        }
      }
    }
  }
}
