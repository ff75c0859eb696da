/**
 * The bot's conversation memory (src/memory.js): one document keyed by guild,
 * each guild holding its channel logs and its user profiles. The document is
 * modelled as immutable values; the class `Memory` holds the current document
 * and updates it in place, the way the JavaScript object does.
 */
module MemoryStore {
  import opened Wrappers
  import opened Text
  import opened Discord

  /** One stored chat line (`{userId, name, role, text, ts}`). */
  datatype Message = Message(userId: Snowflake, name: string, role: string, text: string, ts: int)

  /** A user's profile (`{name, facts, lastSeen}`). */
  datatype Profile = Profile(name: string, facts: seq<string>, lastSeen: int)

  /** One guild's entry: channel id to message log, user id to profile. */
  datatype Guild = Guild(channels: map<Snowflake, seq<Message>>, users: map<Snowflake, Profile>)

  /** `state.guilds`: the whole persisted document. */
  type Document = map<Snowflake, Guild>

  /**
   * The argument of `addMessage`. An empty `role` stands for a missing or
   * empty role (both falsy in JavaScript); `ts` is `None` when absent.
   */
  datatype Incoming = Incoming(
    guildId: Snowflake, channelId: Snowflake, userId: Snowflake, username: string,
    role: string, text: string, ts: Option<int>)

  const DEFAULT_CHANNEL_LIMIT := 100
  const DEFAULT_RECENT_LIMIT := 20

  const EMPTY_GUILD := Guild(map[], map[])

  function Min(a: int, b: int): int { if a <= b then a else b }
  function Max(a: int, b: int): int { if a <= b then b else a }

  // ---------------------------------------------------------------------------
  // Reading the document

  function ChannelsOf(doc: Document, g: Snowflake): map<Snowflake, seq<Message>> {
    if g in doc then doc[g].channels else map[]
  }

  function UsersOf(doc: Document, g: Snowflake): map<Snowflake, Profile> {
    if g in doc then doc[g].users else map[]
  }

  /** A channel's log; a missing guild or channel reads as empty. */
  function LogOf(doc: Document, g: Snowflake, c: Snowflake): seq<Message> {
    var channels := ChannelsOf(doc, g);
    if c in channels then channels[c] else []
  }

  function ProfileOf(doc: Document, g: Snowflake, u: Snowflake): Option<Profile> {
    var users := UsersOf(doc, g);
    if u in users then Some(users[u]) else None
  }

  predicate NoDuplicates(xs: seq<string>) {
    forall i, j :: 0 <= i < j < |xs| ==> xs[i] != xs[j]
  }

  /**
   * The invariant the store keeps for the documents it builds itself: every
   * log within the limit, every fact list free of duplicates. A document read
   * from disk need not satisfy it.
   */
  ghost predicate WellFormed(doc: Document, limit: int) {
    && (forall g, c :: g in doc && c in doc[g].channels ==> |doc[g].channels[c]| <= Max(limit, 0))
    && (forall g, u :: g in doc && u in doc[g].users ==> NoDuplicates(doc[g].users[u].facts))
  }

  // ---------------------------------------------------------------------------
  // The lazy-creation helpers

  /** `_ensureGuild`: add an empty entry for `g` when there is none. */
  function EnsureGuildDoc(doc: Document, g: Snowflake): (r: Document)
    ensures g in r
  {
    if g in doc then doc else doc[g := EMPTY_GUILD]
  }

  /** `_ensureUser`: create the profile when missing, then refresh its name if a non-empty one is given. */
  function EnsureUserDoc(doc: Document, g: Snowflake, u: Snowflake, username: string): (r: Document)
    ensures g in r && u in r[g].users
  {
    var d := EnsureGuildDoc(doc, g);
    var users := d[g].users;
    var p := if u in users then users[u] else Profile(username, [], 0);
    var p' := if username != "" && p.name != username then p.(name := username) else p;
    d[g := d[g].(users := users[u := p'])]
  }

  /** `_ensureChannel`: add an empty log for `c` in `g` when there is none. */
  function EnsureChannelDoc(doc: Document, g: Snowflake, c: Snowflake): (r: Document)
    ensures g in r && c in r[g].channels
  {
    var d := EnsureGuildDoc(doc, g);
    var channels := d[g].channels;
    if c in channels then d else d[g := d[g].(channels := channels[c := []])]
  }

  // ---------------------------------------------------------------------------
  // addMessage

  /** The message `addMessage` stores: role defaults to "user", the time stamp to `now`. */
  function StoredMessage(m: Incoming, now: int): (r: Message)
    ensures r.userId == m.userId && r.name == m.username && r.text == m.text
    ensures r.role == (if m.role == "" then "user" else m.role)
    ensures r.ts == (if m.ts.Some? then m.ts.value else now)
  {
    Message(m.userId, m.username, if m.role == "" then "user" else m.role, m.text, m.ts.GetOr(now))
  }

  /** The last `limit` entries of `s` (none when `limit <= 0`): FIFO eviction. */
  function KeepLast<T>(s: seq<T>, limit: int): (r: seq<T>)
    ensures |r| == Min(|s|, Max(limit, 0))
    ensures r == s[|s| - |r|..]
  {
    if limit <= 0 then [] else if |s| > limit then s[|s| - limit..] else s
  }

  /**
   * The document after `addMessage`'s three `_ensure*` calls: guild, author
   * and channel present.
   */
  function PrepareDoc(doc: Document, m: Incoming): (r: Document)
    ensures m.guildId in r
    ensures m.channelId in r[m.guildId].channels && m.userId in r[m.guildId].users
  {
    var d0 := EnsureGuildDoc(doc, m.guildId);
    var d1 := EnsureUserDoc(d0, m.guildId, m.userId, m.username);
    EnsureChannelDoc(d1, m.guildId, m.channelId)
  }

  /** `splice(0, |s| - limit)`, applied when `s` is longer than `limit`, keeps the last `limit` entries. */
  lemma SpliceKeepsLast<T>(s: seq<T>, limit: int)
    ensures (if |s| > limit then s[Min(|s| - limit, |s|)..] else s) == KeepLast(s, limit)
  {
  }

  /** A guild's entry after `msg` is appended to channel `c` and its log cut to `limit`. */
  function AppendLog(gd: Guild, c: Snowflake, msg: Message, limit: int): Guild
    requires c in gd.channels
  {
    gd.(channels := gd.channels[c := KeepLast(gd.channels[c] + [msg], limit)])
  }

  /** A guild's entry after user `u`'s `lastSeen` is set to `ts`. */
  function Stamp(gd: Guild, u: Snowflake, ts: int): Guild
    requires u in gd.users
  {
    gd.(users := gd.users[u := gd.users[u].(lastSeen := ts)])
  }

  /** Recording `msg` in a prepared document: append and cut the log, stamp the author. */
  function Record(d: Document, g: Snowflake, c: Snowflake, msg: Message, limit: int): Document
    requires g in d && c in d[g].channels && msg.userId in d[g].users
  {
    d[g := Stamp(AppendLog(d[g], c, msg, limit), msg.userId, msg.ts)]
  }

  /** Proof step for `Memory.Append`: `Record` spelled out as an update of the guild's two maps. */
  lemma RecordIs(d: Document, g: Snowflake, c: Snowflake, msg: Message, limit: int, log: seq<Message>, author: Profile)
    requires g in d && c in d[g].channels && msg.userId in d[g].users
    requires log == KeepLast(d[g].channels[c] + [msg], limit)
    requires author == d[g].users[msg.userId].(lastSeen := msg.ts)
    ensures Record(d, g, c, msg, limit) == d[g := Guild(d[g].channels[c := log], d[g].users[msg.userId := author])]
  {
  }

  /** The document after `addMessage(m)`, before it is saved. */
  function AddMessageDoc(doc: Document, m: Incoming, now: int, limit: int): Document {
    Record(PrepareDoc(doc, m), m.guildId, m.channelId, StoredMessage(m, now), limit)
  }

  // Proof step: `AddMessageDoc` unfolded one level, for callers that reason about `Record`.
  lemma AddMessageDocIs(doc: Document, m: Incoming, now: int, limit: int)
    ensures AddMessageDoc(doc, m, now, limit) == Record(PrepareDoc(doc, m), m.guildId, m.channelId, StoredMessage(m, now), limit)
  {
  }

  // ---------------------------------------------------------------------------
  // getRecentChannelMessages

  /**
   * JavaScript's `Array.prototype.slice(start)` for an integer `start`: a
   * negative start counts from the end, and either way it is clamped to the array.
   */
  function SliceFrom<T>(s: seq<T>, start: int): (r: seq<T>)
    ensures |r| <= |s| && r == s[|s| - |r|..]
    ensures start >= 0 ==> |r| == |s| - Min(start, |s|)
    ensures start < 0 ==> |r| == Min(-start, |s|)
  {
    if start < 0 then s[Max(|s| + start, 0)..] else s[Min(start, |s|)..]
  }

  /** `getRecentChannelMessages`: `slice(-limit)` of the log, or nothing for an unknown channel. */
  function RecentMessages(doc: Document, g: Snowflake, c: Snowflake, limit: int): (r: seq<Message>)
    ensures c !in ChannelsOf(doc, g) ==> r == []
    ensures limit >= 1 ==> r == LogOf(doc, g, c)[|LogOf(doc, g, c)| - Min(limit, |LogOf(doc, g, c)|)..]
    ensures limit == 0 ==> r == LogOf(doc, g, c)
    ensures limit < 0 ==> r == LogOf(doc, g, c)[Min(-limit, |LogOf(doc, g, c)|)..]
  {
    if c in ChannelsOf(doc, g) then SliceFrom(ChannelsOf(doc, g)[c], -limit) else []
  }

  // ---------------------------------------------------------------------------
  // rememberUserFact

  /** Whether `fact` is already on record for `u` in `g`. */
  predicate FactKnown(doc: Document, g: Snowflake, u: Snowflake, fact: string) {
    var p := ProfileOf(doc, g, u);
    p.Some? && fact in p.value.facts
  }

  /** The document after `rememberUserFact(g, u, fact)`. */
  function RememberFactDoc(doc: Document, g: Snowflake, u: Snowflake, fact: string): Document {
    var d := EnsureUserDoc(doc, g, u, "");
    var p := d[g].users[u];
    if fact in p.facts then d
    else d[g := d[g].(users := d[g].users[u := p.(facts := p.facts + [fact])])]
  }

  // ---------------------------------------------------------------------------
  // getUserProfileText

  /** The non-empty parts of a profile, in the order they are rendered. */
  function ProfileParts(p: Profile): seq<string> {
    (if p.name != "" then ["Name: " + p.name] else [])
    + (if |p.facts| > 0 then ["Facts: " + Join(p.facts, "; ")] else [])
  }

  /** `getUserProfileText`: the parts joined by " | ", or "" for an unknown user. */
  function ProfileText(doc: Document, g: Snowflake, u: Snowflake): string {
    match ProfileOf(doc, g, u)
    case None => ""
    case Some(p) => Join(ProfileParts(p), " | ")
  }

  // ---------------------------------------------------------------------------
  // load

  /** The document after `load()` given what the read produced (`None`: missing or unparsable). */
  function Loaded(loaded: bool, doc: Document, read: Option<Document>): Document {
    if loaded then doc else read.GetOr(doc)
  }

  /** The snapshots `load()` writes: the fresh document, only when the first read fails. */
  function LoadSaves(loaded: bool, doc: Document, read: Option<Document>): seq<Document> {
    if !loaded && read.None? then [doc] else []
  }

  /**
   * The store. `guilds` is `state.guilds`; `saved` lists, oldest first, the
   * snapshots `_save` has written (the file writes themselves are not modelled).
   */
  class Memory {
    const channelLimit: int
    var guilds: Document
    var loaded: bool
    var saved: seq<Document>

    /** Until the first `load()`, the store holds the fresh `{guilds: {}}` it was built with. */
    ghost predicate Fresh()
      reads this
    {
      !loaded ==> guilds == map[]
    }

    /** `new Memory({channelLimit})`; `configuredLimit` is `None` unless the option is a finite number. */
    constructor (configuredLimit: Option<int>)
      ensures channelLimit == configuredLimit.GetOr(DEFAULT_CHANNEL_LIMIT)
      ensures guilds == map[] && !loaded && saved == []
      ensures Fresh()
    {
      channelLimit := if configuredLimit.Some? then configuredLimit.value else DEFAULT_CHANNEL_LIMIT;
      guilds := map[];
      loaded := false;
      saved := [];
    }

    /** `_save`: write a snapshot of the current document. */
    method Save()
      modifies this
      ensures guilds == old(guilds) && loaded == old(loaded)
      ensures saved == old(saved) + [guilds]
    {
      saved := saved + [guilds];
    }

    /**
     * `load`: the first call installs the document read from disk, or keeps
     * the current one and saves it when the read failed; later calls do nothing.
     */
    method Load(read: Option<Document>)
      requires Fresh()
      modifies this
      ensures loaded && Fresh()
      ensures old(loaded) ==> guilds == old(guilds) && saved == old(saved)
      ensures !old(loaded) && read.Some? ==> guilds == read.value && saved == old(saved)
      ensures !old(loaded) && read.None? ==> guilds == old(guilds) && saved == old(saved) + [old(guilds)]
      ensures !old(loaded) && read.None? ==> guilds == map[] && saved == old(saved) + [map[]]
    {
      if loaded {
        return;
      }
      match read {
        case Some(d) =>
          guilds := d;
        case None =>
          Save();
      }
      loaded := true;
    }

    method EnsureGuild(g: Snowflake)
      requires loaded
      modifies this
      ensures guilds == EnsureGuildDoc(old(guilds), g)
      ensures loaded == old(loaded) && saved == old(saved)
    {
      if g !in guilds {
        guilds := guilds[g := EMPTY_GUILD];
      }
    }

    method EnsureChannel(g: Snowflake, c: Snowflake)
      requires loaded
      modifies this
      ensures guilds == EnsureChannelDoc(old(guilds), g, c)
      ensures loaded == old(loaded) && saved == old(saved)
    {
      EnsureGuild(g);
      var gd := guilds[g];
      if c !in gd.channels {
        guilds := guilds[g := gd.(channels := gd.channels[c := []])];
      }
    }

    method EnsureUser(g: Snowflake, u: Snowflake, username: string)
      requires loaded
      modifies this
      ensures guilds == EnsureUserDoc(old(guilds), g, u, username)
      ensures loaded == old(loaded) && saved == old(saved)
    {
      EnsureGuild(g);
      var users := guilds[g].users;
      var p := if u in users then users[u] else Profile(username, [], 0);
      if username != "" && p.name != username {
        p := p.(name := username);
      }
      guilds := guilds[g := guilds[g].(users := users[u := p])];
    }

    /** `addMessage`: append, trim from the front to `channelLimit`, stamp the author, save. */
    method AddMessage(read: Option<Document>, m: Incoming, now: int)
      requires Fresh()
      modifies this
      ensures loaded && Fresh()
      ensures guilds == AddMessageDoc(Loaded(old(loaded), old(guilds), read), m, now, channelLimit)
      ensures saved == old(saved) + LoadSaves(old(loaded), old(guilds), read) + [guilds]
    {
      Load(read);
      Append(m, now);
      Save();
    }

    /** The three `_ensure*` calls that open `addMessage`, in their order. */
    method Prepare(m: Incoming)
      requires loaded
      modifies this
      ensures guilds == PrepareDoc(old(guilds), m)
      ensures loaded == old(loaded) && saved == old(saved)
    {
      EnsureGuild(m.guildId);
      EnsureUser(m.guildId, m.userId, m.username);
      EnsureChannel(m.guildId, m.channelId);
    }

    /** The in-memory part of `addMessage`, between loading and saving. */
    method Append(m: Incoming, now: int)
      requires loaded
      modifies this
      ensures guilds == AddMessageDoc(old(guilds), m, now, channelLimit)
      ensures loaded == old(loaded) && saved == old(saved)
    {
      var ts := if m.ts.Some? then m.ts.value else now;
      Prepare(m);
      var msg := Message(m.userId, m.username, if m.role == "" then "user" else m.role, m.text, ts);
      assert msg == StoredMessage(m, now);
      RecordMessage(m.guildId, m.channelId, msg);
      AddMessageDocIs(old(guilds), m, now, channelLimit);
    }

    /** The push, the guarded `splice` and the `lastSeen` stamp of `addMessage`, on a prepared document. */
    method RecordMessage(g: Snowflake, c: Snowflake, msg: Message)
      requires loaded
      requires g in guilds && c in guilds[g].channels && msg.userId in guilds[g].users
      modifies this
      ensures guilds == Record(old(guilds), g, c, msg, channelLimit)
      ensures loaded == old(loaded) && saved == old(saved)
    {
      var gd := guilds[g];
      var log := gd.channels[c] + [msg];
      // splice(0, length - limit), whose delete count is clamped to the length
      if |log| > channelLimit {
        log := log[Min(|log| - channelLimit, |log|)..];
      }
      SpliceKeepsLast(gd.channels[c] + [msg], channelLimit);
      var author := gd.users[msg.userId].(lastSeen := msg.ts);
      RecordIs(guilds, g, c, msg, channelLimit, log, author);
      guilds := guilds[g := Guild(gd.channels[c := log], gd.users[msg.userId := author])];
    }

    /** `getRecentChannelMessages`: loads, then reads only; the limit defaults to 20 when not given. */
    method GetRecentChannelMessages(read: Option<Document>, g: Snowflake, c: Snowflake, limit: Option<int>)
      returns (r: seq<Message>)
      requires Fresh()
      modifies this
      ensures loaded && Fresh() && guilds == Loaded(old(loaded), old(guilds), read)
      ensures saved == old(saved) + LoadSaves(old(loaded), old(guilds), read)
      ensures r == RecentMessages(guilds, g, c, limit.GetOr(DEFAULT_RECENT_LIMIT))
    {
      Load(read);
      var n := if limit.Some? then limit.value else DEFAULT_RECENT_LIMIT;
      if g !in guilds || c !in guilds[g].channels {
        assert c !in ChannelsOf(guilds, g);
        return [];
      }
      assert ChannelsOf(guilds, g) == guilds[g].channels;
      r := SliceFrom(guilds[g].channels[c], -n);
    }

    /** `rememberUserFact`: add the fact unless already present; save only on a change. */
    method RememberUserFact(read: Option<Document>, g: Snowflake, u: Snowflake, fact: string)
      requires Fresh()
      modifies this
      ensures loaded && Fresh()
      ensures guilds == RememberFactDoc(Loaded(old(loaded), old(guilds), read), g, u, fact)
      ensures saved == old(saved) + LoadSaves(old(loaded), old(guilds), read)
                       + (if FactKnown(Loaded(old(loaded), old(guilds), read), g, u, fact) then [] else [guilds])
    {
      Load(read);
      EnsureUser(g, u, "");
      var p := guilds[g].users[u];
      if fact !in p.facts {
        guilds := guilds[g := guilds[g].(users := guilds[g].users[u := p.(facts := p.facts + [fact])])];
        Save();
      }
    }

    /** `getUserProfileText`: loads, then renders the profile part by part. */
    method GetUserProfileText(read: Option<Document>, g: Snowflake, u: Snowflake) returns (r: string)
      requires Fresh()
      modifies this
      ensures loaded && Fresh() && guilds == Loaded(old(loaded), old(guilds), read)
      ensures saved == old(saved) + LoadSaves(old(loaded), old(guilds), read)
      ensures r == ProfileText(guilds, g, u)
    {
      Load(read);
      if g !in guilds || u !in guilds[g].users {
        return "";
      }
      var p := guilds[g].users[u];
      var parts: seq<string> := [];
      if p.name != "" {
        parts := parts + ["Name: " + p.name];
      }
      if |p.facts| > 0 {
        parts := parts + ["Facts: " + Join(p.facts, "; ")];
      }
      assert parts == ProfileParts(p);
      r := Join(parts, " | ");
    }
  }
}
