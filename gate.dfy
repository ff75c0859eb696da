/**
 * Which messages the bot answers (src/index.js). Per guild the bot is either
 * inactive or active in one voice channel, whose built-in text chat is the
 * only place it reads; `/come` activates it and losing the voice connection
 * deactivates it. The map `activeVoiceChatByGuild` (guild id to voice channel
 * id) is the field `active` of `VoiceChatRegistry`.
 */
module Gate {
  import opened Wrappers
  import opened Text
  import opened Discord

  /** What the message handler inspects in an inbound message; `content` is `None` when absent. */
  datatype Inbound = Inbound(
    guildId: Option<Snowflake>, authorIsBot: bool,
    channelKind: ChannelKind, channelId: Snowflake, content: Option<string>)

  /** The message was posted by a person in the text chat of the voice channel its guild is active in. */
  predicate Addressed(ev: Inbound, active: map<Snowflake, Snowflake>) {
    && ev.guildId.Some?
    && !ev.authorIsBot
    && ev.guildId.value in active
    && ev.channelKind == GuildVoice
    && ev.channelId == active[ev.guildId.value]
  }

  /**
   * The checks at the top of the message handler: `Some(userText)`, the
   * trimmed content, when the handler goes on, `None` when it returns early.
   */
  function Admit(ev: Inbound, active: map<Snowflake, Snowflake>): (r: Option<string>)
    ensures r.Some? <==> Addressed(ev, active) && !AllSpace(ev.content.GetOr(""))
    ensures r.Some? ==> r.value == Trim(ev.content.GetOr("")) && r.value != ""
  {
    if ev.guildId.None? then None
    else if ev.authorIsBot then None
    else if ev.guildId.value !in active then None
    else if ev.channelKind != GuildVoice then None
    else if ev.channelId != active[ev.guildId.value] then None
    else
      var userText := Trim(ev.content.GetOr(""));
      TrimEmptyIff(ev.content.GetOr(""));
      if userText == "" then None else Some(userText)
  }

  // ---------------------------------------------------------------------------
  // /come

  /** The voice channel the invoking member is connected to. */
  datatype VoiceChannel = VoiceChannel(id: Snowflake, guildId: Snowflake, kind: ChannelKind)

  /**
   * An interaction: whether it is a slash command, its name, the guild it came
   * from (`None` outside a server), whether a member is attached, and the
   * member's current voice channel.
   */
  datatype Interaction = Interaction(
    isChatInputCommand: bool, commandName: string, guildId: Option<Snowflake>,
    hasMember: bool, voice: Option<VoiceChannel>)

  /** The ephemeral reply `/come` sends, or `NoReply` for interactions it ignores. */
  datatype ComeReply = NoReply | OnlyInServer | JoinVoiceFirst | Here(channelId: Snowflake) | JoinFailed

  /** The result of one `/come`: the new map and the reply. */
  datatype ComeOutcome = ComeOutcome(active: map<Snowflake, Snowflake>, reply: ComeReply)

  /** The voice channel `/come` tries to join, when the interaction gets that far. */
  function ComeTarget(it: Interaction): (r: Option<VoiceChannel>)
    ensures r.Some? <==>
      && it.isChatInputCommand && it.commandName == "come"
      && it.guildId.Some? && it.hasMember
      && it.voice.Some? && it.voice.value.kind == GuildVoice
    ensures r.Some? ==> r == it.voice
  {
    if !it.isChatInputCommand || it.commandName != "come" then None
    else if it.guildId.None? || !it.hasMember then None
    else if it.voice.None? || it.voice.value.kind != GuildVoice then None
    else it.voice
  }

  /**
   * `/come`, given whether joining the voice channel throws and whether the
   * confirmation reply throws (either lands in the `catch`). The map entry is
   * written after a successful join and before the confirmation, so a failed
   * confirmation still leaves the guild active.
   */
  function Come(active: map<Snowflake, Snowflake>, it: Interaction, joinThrows: bool, ackThrows: bool): (r: ComeOutcome)
    ensures ComeTarget(it).Some? && !joinThrows ==>
      var v := ComeTarget(it).value;
      && r.active == active[v.guildId := v.id]
      && r.reply == (if ackThrows then JoinFailed else Here(v.id))
    ensures ComeTarget(it).Some? && joinThrows ==> r == ComeOutcome(active, JoinFailed)
    ensures ComeTarget(it).None? ==> r.active == active && r.reply != JoinFailed && !r.reply.Here?
  {
    if !it.isChatInputCommand || it.commandName != "come" then ComeOutcome(active, NoReply)
    else if it.guildId.None? || !it.hasMember then ComeOutcome(active, OnlyInServer)
    else if it.voice.None? || it.voice.value.kind != GuildVoice then ComeOutcome(active, JoinVoiceFirst)
    else if joinThrows then ComeOutcome(active, JoinFailed)
    else
      var v := it.voice.value;
      ComeOutcome(active[v.guildId := v.id], if ackThrows then JoinFailed else Here(v.id))
  }

  // ---------------------------------------------------------------------------
  // Voice state updates

  /** A voice state change: whose state it was before and after, and the guild (of the old state). */
  datatype VoiceStateChange = VoiceStateChange(oldMemberId: Option<Snowflake>, newMemberId: Option<Snowflake>, guildId: Snowflake)

  /**
   * The voice-state listener, given the bot's own id (`None` before login) and
   * whether a voice connection to the guild remains: when the change concerns
   * the bot and no connection remains, the guild is deactivated.
   */
  function AfterVoiceState(active: map<Snowflake, Snowflake>, meId: Option<Snowflake>, ch: VoiceStateChange, connected: bool)
    : (r: map<Snowflake, Snowflake>)
    ensures r == active || r == active - {ch.guildId}
    ensures ch.guildId !in r <==> ch.guildId !in active || (ConcernsBot(meId, ch) && !connected)
  {
    if meId.None? then active
    else if ch.oldMemberId != meId && ch.newMemberId != meId then active
    else if connected then active
    else active - {ch.guildId}
  }

  /** `wasMe`: the change is about the bot itself (and the bot is logged in), whether it joined or left. */
  predicate ConcernsBot(meId: Option<Snowflake>, ch: VoiceStateChange) {
    meId.Some? && (ch.oldMemberId == meId || ch.newMemberId == meId)
  }

  // ---------------------------------------------------------------------------
  // The map, updated in place

  class VoiceChatRegistry {
    var active: map<Snowflake, Snowflake>

    /** At start-up no guild is active. */
    constructor ()
      ensures active == map[]
    {
      active := map[];
    }

    /** The `/come` handler. */
    method OnCome(it: Interaction, joinThrows: bool, ackThrows: bool) returns (reply: ComeReply)
      modifies this
      ensures ComeOutcome(active, reply) == Come(old(active), it, joinThrows, ackThrows)
    {
      if !it.isChatInputCommand || it.commandName != "come" {
        return NoReply;
      }
      if it.guildId.None? || !it.hasMember {
        return OnlyInServer;
      }
      if it.voice.None? || it.voice.value.kind != GuildVoice {
        return JoinVoiceFirst;
      }
      var voice := it.voice.value;
      if joinThrows {
        return JoinFailed;
      }
      active := active[voice.guildId := voice.id];
      reply := if ackThrows then JoinFailed else Here(voice.id);
    }

    /** The voice-state listener. */
    method OnVoiceStateUpdate(meId: Option<Snowflake>, ch: VoiceStateChange, connected: bool)
      modifies this
      ensures active == AfterVoiceState(old(active), meId, ch, connected)
    {
      if meId.None? {
        return;
      }
      var wasMe := ch.oldMemberId == meId || ch.newMemberId == meId;
      if !wasMe {
        return;
      }
      if !connected {
        active := active - {ch.guildId};
      }
    }
  }

  // ---------------------------------------------------------------------------
  // What the transitions mean for the gate

  /**
   * After a successful `/come`, people's non-blank messages in the text chat of
   * the summoned channel are answered, and no other channel of that guild is
   * (in particular not the channel the guild was active in before).
   */
  lemma ComeRedirects(active: map<Snowflake, Snowflake>, it: Interaction, joinThrows: bool, ackThrows: bool, ev: Inbound)
    requires ComeTarget(it).Some? && !joinThrows
    requires ev.guildId == Some(ComeTarget(it).value.guildId)
    ensures
      var v := ComeTarget(it).value;
      var after := Come(active, it, joinThrows, ackThrows).active;
      Admit(ev, after).Some? <==>
        !ev.authorIsBot && ev.channelKind == GuildVoice && ev.channelId == v.id && !AllSpace(ev.content.GetOr(""))
  {
  }

  /** `/come` in one guild changes nothing about any other guild's messages. */
  lemma ComeOtherGuilds(active: map<Snowflake, Snowflake>, it: Interaction, joinThrows: bool, ackThrows: bool, ev: Inbound)
    requires ComeTarget(it).None? || joinThrows || ev.guildId != Some(ComeTarget(it).value.guildId)
    ensures Admit(ev, Come(active, it, joinThrows, ackThrows).active) == Admit(ev, active)
  {
    var after := Come(active, it, joinThrows, ackThrows).active;
    if ev.guildId.Some? && ComeTarget(it).Some? && !joinThrows {
      var g := ev.guildId.value;
      assert g in after <==> g in active;
      assert g in active ==> after[g] == active[g];
    }
  }

  /** Once the bot has left a guild's voice channel, nothing posted in that guild is answered. */
  lemma LeaveSilences(active: map<Snowflake, Snowflake>, meId: Option<Snowflake>, ch: VoiceStateChange, ev: Inbound)
    requires ConcernsBot(meId, ch) && ev.guildId == Some(ch.guildId)
    ensures Admit(ev, AfterVoiceState(active, meId, ch, false)).None?
  {
  }

  /**
   * A voice state change never lets through a message that was not let
   * through before: it can only remove entries, so a guild is reactivated
   * only by another `/come`; and other guilds are unaffected.
   */
  lemma VoiceStateNeverAdmits(active: map<Snowflake, Snowflake>, meId: Option<Snowflake>, ch: VoiceStateChange, connected: bool, ev: Inbound)
    ensures Admit(ev, AfterVoiceState(active, meId, ch, connected)).Some? ==> Admit(ev, active).Some?
    ensures ev.guildId != Some(ch.guildId) ==> Admit(ev, AfterVoiceState(active, meId, ch, connected)) == Admit(ev, active)
  {
    var after := AfterVoiceState(active, meId, ch, connected);
    if ev.guildId.Some? {
      var g := ev.guildId.value;
      assert g in after ==> g in active && after[g] == active[g];
      if g != ch.guildId {
        assert g in after <==> g in active;
      }
    }
  }
}
