/**
 * The message handler of src/index.js, put together from the gate, the
 * memory and the prompt building: an admitted message gets a prompt built
 * from the channel's recent history; when the model answers, the user's turn
 * and then the bot's turn are stored and the cleaned reply is sent.
 */
module Handler {
  import opened Wrappers
  import opened Text
  import opened Discord
  import opened MemoryStore
  import opened MemoryLaws
  import opened Gate
  import opened Prompt

  /** How many stored lines the handler puts in front of the model. */
  const HISTORY_LIMIT := 30

  /** The author of the inbound message: id, guild nickname, global name, account name. */
  datatype Author = Author(id: Snowflake, memberName: Option<string>, globalName: Option<string>, username: string)

  /** The bot's own account. */
  datatype Me = Me(id: Snowflake, username: string)

  /** The line stored for the user's message: the display name and trimmed text, role "user", no time stamp. */
  function UserTurn(g: Snowflake, c: Snowflake, author: Author, userText: string): (r: Incoming)
    ensures r.guildId == g && r.channelId == c && r.userId == author.id && r.role == "user" && r.text == userText
    ensures r.username == DisplayName(author.memberName, author.globalName, author.username) && r.ts.None?
  {
    Incoming(g, c, author.id, DisplayName(author.memberName, author.globalName, author.username), "user", userText, None)
  }

  /** The line stored for the bot's answer: role "assistant", no time stamp. */
  function BotTurn(g: Snowflake, c: Snowflake, me: Me, cleaned: string): (r: Incoming)
    ensures r.guildId == g && r.channelId == c && r.userId == me.id && r.username == me.username
    ensures r.role == "assistant" && r.text == cleaned && r.ts.None?
  {
    Incoming(g, c, me.id, me.username, "assistant", cleaned, None)
  }

  /** The reply after optional alias stripping (`REPLY_STRIP_ASSISTANT_NAME`). */
  function Cleaned(replyText: string, stripEnabled: bool, stripAlias: string -> string): (r: string)
    ensures !stripEnabled ==> r == replyText
    ensures stripEnabled ==> r == SanitizeAssistantReply(Some(replyText), stripAlias)
  {
    if stripEnabled then SanitizeAssistantReply(Some(replyText), stripAlias) else replyText
  }

  /**
   * The `MessageCreate` handler. `ask` stands for the model call (its answer
   * to the prompt; "" for an empty or missing answer), `nowUser` and `nowBot`
   * for the clock at the two stores, `read` for the memory file's contents.
   * Returns the prompt built (empty when the message is not admitted) and
   * the text sent back, if any.
   */
  method OnMessageCreate(
    mem: Memory, registry: VoiceChatRegistry, ev: Inbound, author: Author, me: Me,
    systemEnv: Option<string>, read: Option<Document>, ask: seq<ChatMessage> -> string,
    stripEnabled: bool, stripAlias: string -> string, replyPrefix: string, nowUser: int, nowBot: int)
    returns (prompt: seq<ChatMessage>, sent: Option<string>)
    requires mem.Fresh()
    modifies mem
    ensures mem.Fresh()
    ensures Admit(ev, registry.active).None? ==>
      && prompt == [] && sent.None?
      && mem.guilds == old(mem.guilds) && mem.loaded == old(mem.loaded) && mem.saved == old(mem.saved)
    ensures Admit(ev, registry.active).Some? ==>
      var g, c, userText := ev.guildId.value, ev.channelId, Admit(ev, registry.active).value;
      var doc := Loaded(old(mem.loaded), old(mem.guilds), read);
      var name := DisplayName(author.memberName, author.globalName, author.username);
      var replyText := ask(prompt);
      var cleaned := Cleaned(replyText, stripEnabled, stripAlias);
      var afterUser := AddMessageDoc(doc, UserTurn(g, c, author, userText), nowUser, mem.channelLimit);
      var loadSaves := old(mem.saved) + LoadSaves(old(mem.loaded), old(mem.guilds), read);
      && mem.loaded
      && prompt == BuildMessages(SystemPrompt(systemEnv), RecentMessages(doc, g, c, HISTORY_LIMIT), name, userText)
      && (replyText == "" ==> sent.None? && mem.guilds == doc && mem.saved == loadSaves)
      && (replyText != "" ==>
            && sent == Some(Trim(replyPrefix + cleaned))
            && mem.guilds == AddMessageDoc(afterUser, BotTurn(g, c, me, cleaned), nowBot, mem.channelLimit)
            && mem.saved == loadSaves + [afterUser, mem.guilds])
  {
    var admitted := Admit(ev, registry.active);
    if admitted.None? {
      return [], None;
    }
    var g, c, userText := ev.guildId.value, ev.channelId, admitted.value;
    var system := SystemPrompt(systemEnv);
    var name := DisplayName(author.memberName, author.globalName, author.username);
    var history := mem.GetRecentChannelMessages(read, g, c, Some(HISTORY_LIMIT));
    prompt := BuildMessages(system, history, name, userText);
    var replyText := ask(prompt);
    if replyText == "" {
      return prompt, None;
    }
    var cleaned := Cleaned(replyText, stripEnabled, stripAlias);
    ghost var before, wasLoaded, doc := mem.saved, mem.loaded, mem.guilds;
    mem.AddMessage(read, UserTurn(g, c, author, userText), nowUser);
    ghost var afterUser, savedUser := mem.guilds, mem.saved;
    mem.AddMessage(read, BotTurn(g, c, me, cleaned), nowBot);
    TwoSnapshots(before, LoadSaves(wasLoaded, doc, read), afterUser, savedUser,
                 LoadSaves(true, afterUser, read), mem.guilds, mem.saved);
    sent := Some(Trim(replyPrefix + cleaned));
  }

  /** Proof step for `OnMessageCreate`: two saves after the store is loaded add exactly two snapshots. */
  lemma TwoSnapshots<T>(s0: seq<T>, e1: seq<T>, x: T, s1: seq<T>, e2: seq<T>, y: T, s2: seq<T>)
    requires e1 == [] && e2 == []
    requires s1 == s0 + e1 + [x] && s2 == s1 + e2 + [y]
    ensures s2 == s0 + [x, y]
  {
  }

  /**
   * Two messages to one channel (the user's turn, then the bot's), with room
   * for two lines, end its log in the order they came.
   */
  lemma TwoAppends(doc: Document, a: Incoming, b: Incoming, nowA: int, nowB: int, limit: int)
    requires a.guildId == b.guildId && a.channelId == b.channelId && limit >= 2
    ensures
      var after := AddMessageDoc(AddMessageDoc(doc, a, nowA, limit), b, nowB, limit);
      var log := LogOf(after, a.guildId, a.channelId);
      && a.channelId in ChannelsOf(after, a.guildId)
      && |log| >= 2 && log[|log| - 2..] == [StoredMessage(a, nowA), StoredMessage(b, nowB)]
  {
    var mid := AddMessageDoc(doc, a, nowA, limit);
    AddMessageLog(doc, a, nowA, limit);
    AddMessageLogIs(mid, b, nowB, limit);
    TailTwo(LogOf(mid, a.guildId, a.channelId), StoredMessage(b, nowB), limit);
  }

  // Proof step for `TwoAppends`.
  lemma TailTwo<T>(s: seq<T>, x: T, limit: int)
    requires limit >= 2 && |s| >= 1
    ensures
      var r := KeepLast(s + [x], limit);
      |r| >= 2 && r[|r| - 2..] == [s[|s| - 1], x]
  {
    var full := s + [x];
    var r := KeepLast(full, limit);
    assert r[|r| - 2] == full[|full| - 2];
    assert r[|r| - 1] == full[|full| - 1];
  }

  /** How a stored line reads back in the prompt: the user's tagged with the display name, the bot's verbatim. */
  lemma ChatOfStored(m: Incoming, now: int)
    ensures m.role == "user" ==> ToChat(StoredMessage(m, now)) == ChatMessage("user", Tagged(m.username, m.text))
    ensures m.role == "assistant" ==> ToChat(StoredMessage(m, now)) == ChatMessage("assistant", m.text)
  {
  }

  /**
   * When a channel's log ends with `x` then `y` (as after an exchange, by
   * `TwoAppends`), the next prompt built for it ends its history with their
   * chat forms, in that order.
   */
  lemma NextPromptEndsWith(doc: Document, g: Snowflake, c: Snowflake, x: Message, y: Message)
    requires c in ChannelsOf(doc, g)
    requires var log := LogOf(doc, g, c); |log| >= 2 && log[|log| - 2..] == [x, y]
    ensures
      var chat := HistoryToChat(RecentMessages(doc, g, c, HISTORY_LIMIT));
      |chat| >= 2 && chat[|chat| - 2] == ToChat(x) && chat[|chat| - 1] == ToChat(y)
  {
    var log := LogOf(doc, g, c);
    var recent := RecentMessages(doc, g, c, HISTORY_LIMIT);
    assert recent == log[|log| - Min(HISTORY_LIMIT, |log|)..];
    assert recent[|recent| - 2] == log[|log| - 2] == x;
    assert recent[|recent| - 1] == log[|log| - 1] == y;
  }
}
