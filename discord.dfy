/** The chat platform's vocabulary that the bot's core depends on. */
module Discord {

  /**
   * A platform id (guild, channel, user). Ids are snowflakes: decimal
   * strings of a 64-bit number, which the bot only stores, compares and uses
   * as keys; they are modelled by that number.
   */
  type Snowflake = int

  /** The channel types the bot distinguishes; only `GuildVoice` matters to it. */
  datatype ChannelKind = GuildText | DM | GuildVoice | GroupDM | GuildCategory
                       | GuildAnnouncement | Thread | GuildStageVoice | GuildForum
}
