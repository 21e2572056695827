/**
 * The helpers of bot.ts that hold state between speech events: the 30-second duplicate
 * filter, the alias table for user names, the per-guild, per-user map of recognition
 * streams, and the routing of a finished transcript to the hot or the latent conversation.
 */
module Bot {
  import opened Options
  import opened Text
  import opened Conversation

  /** How long, in milliseconds, a transcript counts as a repeat of the same one. */
  const DuplicateWindow: int := 1000 * 30

  /** The number of context entries the hot route renders for the final prompt. */
  const HotContext: int := 4

  /**
   * `lastCall && now - lastCall < 1000 * 30`: a recorded time of 0 is falsy in JavaScript
   * and so never makes a duplicate.
   */
  predicate Duplicate(calls: map<string, int>, text: string, now: int)
  {
    text in calls && calls[text] != 0 && now - calls[text] < DuplicateWindow
  }

  /** The cache after one isRecentDuplicate call: only a miss records the time. */
  function Record(calls: map<string, int>, text: string, now: int): map<string, int>
  {
    if Duplicate(calls, text, now) then calls else calls[text := now]
  }

  /** A call records at most its own text, and every other text keeps its entry. */
  lemma RecordIsLocal(calls: map<string, int>, text: string, now: int, other: string)
    requires other != text
    ensures other in Record(calls, text, now) <==> other in calls
    ensures other in calls ==> Record(calls, text, now)[other] == calls[other]
    ensures text in Record(calls, text, now)
    ensures !Duplicate(calls, text, now) ==> Record(calls, text, now)[text] == now
  {
  }

  /** The answers to the same text asked at `start`, `start + step`, ... (`count` calls). */
  function Answers(calls: map<string, int>, text: string, start: int, step: int, count: nat): (r: seq<bool>)
    ensures |r| == count
    decreases count
  {
    if count == 0 then []
    else [Duplicate(calls, text, start)] + Answers(Record(calls, text, start), text, start + step, step, count - 1)
  }

  /**
   * A text repeated every 20 seconds is let through and suppressed in turn: the repeat is
   * suppressed, and the call after it, 40 seconds after the last recorded one, is a miss
   * again, because a suppressed call does not refresh the recorded time.
   */
  lemma {:induction false} EveryTwentySecondsAlternates(calls: map<string, int>, text: string, start: int, count: nat)
    requires start > 0 && !Duplicate(calls, text, start)
    ensures forall k :: 0 <= k < count ==> Answers(calls, text, start, 20000, count)[k] == (k % 2 == 1)
    decreases count
  {
    if count >= 2 {
      var after := calls[text := start];
      assert Record(calls, text, start) == after;
      assert Duplicate(after, text, start + 20000);
      assert Record(after, text, start + 20000) == after;
      var rest := Answers(after, text, start + 40000, 20000, count - 2);
      assert Answers(calls, text, start, 20000, count) == [false, true] + rest;
      EveryTwentySecondsAlternates(after, text, start + 40000, count - 2);
    } else if count == 1 {
      assert Answers(calls, text, start, 20000, count)[0] == false;
    }
  }

  /** `recentCalls` with `isRecentDuplicate`; the clock is the parameter `now`. */
  class DuplicateFilter {
    var recentCalls: map<string, int>

    constructor ()
      ensures recentCalls == map[]
    {
      recentCalls := map[];
    }

    method IsRecentDuplicate(text: string, now: int) returns (duplicate: bool)
      modifies this
      ensures duplicate == Duplicate(old(recentCalls), text, now)
      ensures recentCalls == Record(old(recentCalls), text, now)
    {
      if text in recentCalls && recentCalls[text] != 0 && now - recentCalls[text] < DuplicateWindow {
        return true;
      }
      recentCalls := recentCalls[text := now];
      return false;
    }
  }

  /** The development user names that stand for the bot itself. */
  const Aliases: seq<string> := ["Charlie_Bot", "Charlie-Bot", "oracle", "oracle-v2"]

  function FixNames(name: string, botName: string): (r: string)
  {
    if name in Aliases then botName else name
  }

  /**
   * The bot's own aliases become its configured name and every other name passes through;
   * so applying the fix a second time changes nothing.
   */
  lemma FixNamesSpec(name: string, botName: string)
    ensures name in Aliases ==> FixNames(name, botName) == botName
    ensures name !in Aliases ==> FixNames(name, botName) == name
    ensures FixNames(FixNames(name, botName), botName) == FixNames(name, botName)
    ensures FixNames(name, botName) == name || FixNames(name, botName) == botName
  {
  }

  /** `getActiveStream`: null for an unknown guild, undefined for an unknown user. */
  function Lookup<S>(streams: map<string, map<string, S>>, guild: string, user: string): (r: Option<S>)
    ensures r.Some? <==> guild in streams && user in streams[guild]
    ensures r.Some? ==> r.value == streams[guild][user]
  {
    if guild !in streams then None
    else if user !in streams[guild] then None
    else Some(streams[guild][user])
  }

  /** `setActiveStream`: the guild's map is created on first use, then the user is set. */
  function Insert<S>(streams: map<string, map<string, S>>, guild: string, user: string, stream: S): map<string, map<string, S>>
  {
    var inner := if guild in streams then streams[guild] else map[];
    streams[guild := inner[user := stream]]
  }

  /** `destroyActiveStream`: nothing for an unknown guild, else the user leaves the guild's map. */
  function Remove<S>(streams: map<string, map<string, S>>, guild: string, user: string): map<string, map<string, S>>
  {
    if guild !in streams then streams else streams[guild := streams[guild] - {user}]
  }

  /** After a set the pair finds its stream, and every other pair finds what it found before. */
  lemma InsertThenLookup<S>(streams: map<string, map<string, S>>, guild: string, user: string, stream: S,
                            g: string, u: string)
    ensures Lookup(Insert(streams, guild, user, stream), guild, user) == Some(stream)
    ensures (g, u) != (guild, user) ==> Lookup(Insert(streams, guild, user, stream), g, u) == Lookup(streams, g, u)
  {
  }

  /**
   * After a destroy the pair is gone, the guild's map stays (possibly empty), every other
   * pair is unchanged, and an unknown guild leaves the whole map as it was.
   */
  lemma RemoveThenLookup<S>(streams: map<string, map<string, S>>, guild: string, user: string,
                            g: string, u: string)
    ensures Lookup(Remove(streams, guild, user), guild, user) == None
    ensures guild in streams ==> guild in Remove(streams, guild, user)
    ensures guild !in streams ==> Remove(streams, guild, user) == streams
    ensures (g, u) != (guild, user) ==> Lookup(Remove(streams, guild, user), g, u) == Lookup(streams, g, u)
  {
  }

  /** Set then destroy of one pair restores every lookup (the guild's map may stay behind). */
  lemma InsertRemoveRestores<S>(streams: map<string, map<string, S>>, guild: string, user: string, stream: S,
                                g: string, u: string)
    requires Lookup(streams, guild, user) == None
    ensures Lookup(Remove(Insert(streams, guild, user, stream), guild, user), g, u) == Lookup(streams, g, u)
  {
    InsertThenLookup(streams, guild, user, stream, g, u);
    RemoveThenLookup(Insert(streams, guild, user, stream), guild, user, g, u);
  }

  /** The module-level `activeStreams` map of bot.ts. */
  class StreamRegistry<S> {
    var activeStreams: map<string, map<string, S>>

    constructor ()
      ensures activeStreams == map[]
    {
      activeStreams := map[];
    }

    function GetActiveStream(guild: string, user: string): Option<S>
      reads this
    {
      Lookup(activeStreams, guild, user)
    }

    method SetActiveStream(guild: string, user: string, stream: S)
      modifies this
      ensures activeStreams == Insert(old(activeStreams), guild, user, stream)
      ensures GetActiveStream(guild, user) == Some(stream)
    {
      var inner: map<string, S>;
      if guild in activeStreams {
        inner := activeStreams[guild];
      } else {
        inner := map[];
        activeStreams := activeStreams[guild := inner];
      }
      activeStreams := activeStreams[guild := inner[user := stream]];
      InsertThenLookup(old(activeStreams), guild, user, stream, guild, user);
    }

    /** Returns the stream that was there, the one `stream.destroy()` is called on. */
    method DestroyActiveStream(guild: string, user: string) returns (destroyed: Option<S>)
      modifies this
      ensures destroyed == old(GetActiveStream(guild, user))
      ensures activeStreams == Remove(old(activeStreams), guild, user)
      ensures GetActiveStream(guild, user) == None
    {
      if guild !in activeStreams {
        return None;
      }
      var inner := activeStreams[guild];
      destroyed := if user in inner then Some(inner[user]) else None;
      activeStreams := activeStreams[guild := inner - {user}];
    }
  }

  /** Where one "data" event of a recognition stream went. */
  datatype Route = Dropped | Repeated | Hot | Latent

  /**
   * The decision of the "data" handler: no transcript (or an empty one) is dropped, a
   * repeat within 30 seconds is dropped as a duplicate, a transcript naming the bot
   * (case-insensitively) goes to the hot conversation and anything else to the latent one.
   */
  function Routing(result: Option<string>, calls: map<string, int>, now: int, botName: string): Route
  {
    if result.None? || result.value == "" then Dropped
    else if Duplicate(calls, result.value, now) then Repeated
    else if ContainsIgnoreCase(result.value, botName) then Hot
    else Latent
  }

  /** A transcript that reached a conversation is a duplicate for the next 30 seconds. */
  lemma RoutedTranscriptBlocksRepeat(result: Option<string>, calls: map<string, int>, now: int, later: int,
                                     botName: string, laterName: string)
    requires Routing(result, calls, now, botName) in {Hot, Latent}
    requires now != 0 && later - now < DuplicateWindow
    ensures Routing(result, Record(calls, result.value, now), later, laterName) == Repeated
  {
  }

  /** The bot's name is found whatever the case of its letters. */
  lemma HotIgnoresCase(text: string, botName: string, calls: map<string, int>, now: int)
    requires text != "" && !Duplicate(calls, text, now)
    ensures Routing(Some(text), calls, now, botName) == Hot <==>
      exists i :: OccursAt(Lower(text), Lower(botName), i)
  {
    ContainsIff(Lower(text), Lower(botName));
  }

  /**
   * The "data" handler: the duplicate filter is asked first, then exactly one of the two
   * conversations receives the transcript; on the hot route the context window of its last
   * four entries (the one given to finalPrompt) is returned.
   */
  method OnTranscript(filter: DuplicateFilter, conversation: CondensedConversation,
                      latentConversation: CondensedConversation, result: Option<string>,
                      userName: string, now: int, botName: string)
    returns (route: Route, context: Option<string>)
    requires conversation != latentConversation
    modifies filter, conversation, latentConversation
    ensures route == Routing(result, old(filter.recentCalls), now, botName)
    ensures filter.recentCalls ==
      if route == Dropped then old(filter.recentCalls) else Record(old(filter.recentCalls), result.value, now)
    ensures route == Hot ==>
      && conversation.conversation == old(conversation.conversation) + [Element(userName, result.value, now)]
      && conversation.dirty && conversation.lastUpdated == Epoch && conversation.synopsis == old(conversation.synopsis)
      && context == Some(ContextWindow(conversation.conversation, conversation.synopsis, Epoch, true, HotContext))
    ensures route == Latent ==>
      && latentConversation.conversation == old(latentConversation.conversation) + [Element(userName, result.value, now)]
      && latentConversation.dirty && latentConversation.lastUpdated == Epoch
      && latentConversation.synopsis == old(latentConversation.synopsis)
    ensures route != Hot ==> context == None
    ensures route != Hot ==> unchanged(conversation)
    ensures route != Latent ==> unchanged(latentConversation)
  {
    if result.None? || result.value == "" {
      return Dropped, None;
    }
    var duplicate := filter.IsRecentDuplicate(result.value, now);
    if duplicate {
      return Repeated, None;
    }
    if ContainsIgnoreCase(result.value, botName) {
      conversation.AddUtterance(Element(userName, result.value, now));
      var window := conversation.TransformConversationOrGetCachedSynopsis(HotContext);
      return Hot, Some(window);
    }
    latentConversation.AddUtterance(Element(userName, result.value, now));
    return Latent, None;
  }
}
