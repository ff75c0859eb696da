# Kanna voice-chat bot: the memory store and the message path

This project models the core of a Discord bot. The bot answers people only in
the built-in text chat of one voice channel per server ("guild"), the channel
it was summoned to with `/come`. Every answered exchange is remembered in a
per-channel log and per-user profiles, kept in one JSON document on disk.

The model has these parts:

- `MemoryStore` (memory.dfy) is `src/memory.js`. The document `state.guilds` is a
  Dafny `map` from guild id to `Guild`, each with a channel map (channel id to
  message log) and a user map (user id to `Profile`). The class `Memory` holds that
  map in a field and updates it in place, exactly as the source's methods do.
  - Every method is proved equal to a pure function of the old state:
    `AddMessageDoc`, `RecentMessages`, `RememberFactDoc`, `ProfileText`, `Loaded`.
  - The field `saved` lists the snapshots `_save` writes, in order.
- `MemoryLaws` (memory_laws.dfy) proves what those functions promise. It covers
  the bounded, order-preserving channel log, the "nothing else changes" frames,
  the fact list's duplicate freedom and idempotence, and the profile text's
  shape.
- `Gate` (gate.dfy) holds the gate of `src/index.js`: which messages are
  answered, given the map `activeVoiceChatByGuild`. It also holds the two
  handlers that change that map (`/come` and the voice-state listener), as the
  class `VoiceChatRegistry`.
- `Prompt` (prompt.dfy) is the pure text work of `src/index.js`:
  - `escapeRegex`;
  - mapping stored history to chat messages;
  - the layout of the message list;
  - the trimming in `sanitizeAssistantReply`.
- `Handler` (handler.dfy) is the `MessageCreate` handler itself. It admits a
  message, builds the prompt from the last 30 stored lines, asks the model, and
  stores the user's turn and then the bot's turn only when the answer is
  non-empty.
- `Text` (text.dfy) holds ECMAScript `trim` (its whitespace set) and `join`.
- `Wrappers` and `Discord` hold `Option` (JavaScript's `??` is `GetOr`) and ids and
  channel kinds.

Ids are modelled as integers. A missing or `undefined` string field is `""`
wherever the source tests it with `||` or truthiness, and `None` where it uses
`??`. The snapshot write (src/memory.js:32-37) writes a temporary file and then
the primary file directly, without a rename, so the model makes no crash-safety
claim.

## Model

| member | source | states |
|---|---|---|
| Text.LeadingSpace | src/index.js:82 | counts the whitespace `s` starts with: all of it is whitespace and the next character is not |
| Text.TrailingSpace | src/index.js:82 | counts the whitespace `s` ends with: all of it is whitespace and the character before it is not |
| Text.Trim | src/index.js:82 | the result is the slice of the input right after its leading whitespace, only whitespace follows it, and it neither starts nor ends with ECMAScript whitespace: only whitespace at the two ends is removed |
| Text.TrimEmptyIff | src/index.js:82-84 | trimming gives "" exactly when the text is all whitespace (the handler's blank-message check) |
| Text.TrimIdempotent | src/index.js:47 | trimming an already trimmed text changes nothing |
| Text.Join | src/memory.js:131 | a single part joins to itself; the first part is a prefix and the last part a suffix of the joined text |
| Text.JoinSnoc | src/memory.js:128-131 | joining one more part appends the separator and that part |
| MemoryStore.EnsureGuildDoc | src/memory.js:39-42 | the guild exists afterwards (the rest of `_ensureGuild` is stated by `MemoryLaws.EnsureGuildFrame`) |
| MemoryLaws.EnsureGuildFrame | src/memory.js:39-42 | an existing guild is kept as it is, a missing one is added empty, and no other guild changes |
| MemoryStore.EnsureChannelDoc | src/memory.js:44-48 | the guild and its channel exist afterwards |
| MemoryStore.EnsureUserDoc | src/memory.js:50-55 | the guild and the user's profile exist afterwards |
| MemoryStore.StoredMessage | src/memory.js:64-75 | the stored entry copies user id, name and text; role defaults to "user" when empty; time is `ts ?? now` |
| MemoryStore.KeepLast | src/memory.js:78-81 | the trimmed log has length min(n, max(limit, 0)) and is a suffix of the untrimmed log |
| MemoryStore.SpliceKeepsLast | src/memory.js:79-81 | the guarded `splice(0, length - limit)` leaves exactly the newest `limit` entries, for any integer limit |
| MemoryStore.PrepareDoc | src/memory.js:65-67 | after the three `_ensure*` calls the guild, the channel and the author's profile exist |
| MemoryStore.AppendLog | src/memory.js:69-81 | the push and trim of one log; stated by `MemoryLaws.AddMessageLogIs` and `MemoryLaws.AddMessageLog` |
| MemoryStore.Stamp | src/memory.js:83 | the `lastSeen` update; stated by `MemoryLaws.AddMessageProfile` |
| MemoryStore.Record | src/memory.js:69-83 | push, trim and stamp together; its frame is `MemoryLaws.RecordFrame` |
| MemoryStore.AddMessageDoc | src/memory.js:61-86 | the document after `addMessage`; fully characterised by `MemoryLaws.AddMessageLog`, `MemoryLaws.AddMessageProfile` and `MemoryLaws.AddMessageFrame` |
| MemoryStore.SliceFrom | src/memory.js:99 | `slice(start)` returns a suffix, `min(-start, n)` long for a negative start and `n - min(start, n)` long otherwise |
| MemoryStore.RecentMessages | src/memory.js:95-101 | [] for an unknown guild or channel; for limit ≥ 1 the newest min(limit, n) entries in order; the whole log for limit 0 (`slice(-0)`) |
| MemoryStore.RememberFactDoc | src/memory.js:109-116 | the document after `rememberUserFact`; stated by `MemoryLaws.RememberFactProfile`, `RememberFactChangesIff`, `RememberFactIdempotent` and `RememberFactFrame` |
| MemoryStore.ProfileParts | src/memory.js:128-130 | the non-empty "Name:" and "Facts:" parts in order; stated by `MemoryLaws.ProfileTextShape` |
| MemoryStore.ProfileText | src/memory.js:124-132 | the rendered profile; stated by `MemoryLaws.ProfileTextShape` |
| MemoryStore.Loaded | src/memory.js:15-26 | the document after `load()`: unchanged once loaded, else the read document, else the document held, which `Memory.Fresh` makes the empty `{guilds: {}}`; stated by `Memory.Load` |
| MemoryStore.LoadSaves | src/memory.js:20-24 | the one snapshot `load()` writes, only when the first read fails; stated by `Memory.Load` |
| MemoryStore.Memory.constructor | src/memory.js:8-13 | channel limit is the configured one or 100 when absent; empty document, not loaded, nothing saved |
| MemoryStore.Memory.Save | src/memory.js:32-37 | one snapshot of the current document is written; the document is unchanged |
| MemoryStore.Memory.Load | src/memory.js:11-26 | a no-op once loaded; otherwise adopts the read document, or on a failed read keeps the fresh `{guilds: {}}` (the store's `Fresh` invariant: unloaded means empty) and saves it once |
| MemoryStore.Memory.EnsureGuild | src/memory.js:39-42 | only after loading, as all its callers (`addMessage` and the other `_ensure*` helpers) are; the document becomes `EnsureGuildDoc` of the old one |
| MemoryStore.Memory.EnsureChannel | src/memory.js:44-48 | only after loading, as its one caller `addMessage` does; the document becomes `EnsureChannelDoc` of the old one |
| MemoryStore.Memory.EnsureUser | src/memory.js:50-55 | only after loading, as both its callers (`addMessage` and `rememberUserFact`) are; the document becomes `EnsureUserDoc` of the old one |
| MemoryStore.Memory.Prepare | src/memory.js:64-67 | only after loading; the document becomes `PrepareDoc` of the old one, the three `_ensure*` calls in order |
| MemoryStore.Memory.RecordMessage | src/memory.js:69-83 | only after loading; the push, guarded `splice` and `lastSeen` stamp leave exactly `Record` of the prepared document |
| MemoryStore.Memory.Append | src/memory.js:64-83 | the in-place push, trim and `lastSeen` update produce exactly `AddMessageDoc` of the old document |
| MemoryStore.Memory.AddMessage | src/memory.js:61-86 | load, then append; the new document is `AddMessageDoc` of the loaded one and exactly one snapshot of it is saved |
| MemoryStore.Memory.GetRecentChannelMessages | src/memory.js:95-101 | load only; the answer is `RecentMessages` with the limit defaulting to 20 |
| MemoryStore.Memory.RememberUserFact | src/memory.js:109-116 | the document becomes `RememberFactDoc`; a snapshot is saved exactly when the fact was new |
| MemoryStore.Memory.GetUserProfileText | src/memory.js:124-132 | load only; the answer is `ProfileText` of the loaded document |
| MemoryLaws.EnsureUserProfile | src/memory.js:50-55 | a new user starts as (username, no facts, lastSeen 0); an existing one keeps facts and lastSeen, renamed only by a non-empty name |
| MemoryLaws.EnsureUserFrame | src/memory.js:50-55 | other guilds, the guild's channels and all other users are unchanged |
| MemoryLaws.EnsureChannelFrame | src/memory.js:44-48 | other guilds, the users and other channels are unchanged; an existing log is kept as is |
| MemoryLaws.PrepareFrame | src/memory.js:65-67 | the `_ensure*` calls of `addMessage` change no log and no other guild; only the author's profile may change |
| MemoryLaws.AddMessageLogIs | src/memory.js:69-81 | the channel's new log is the old log plus the stored message, trimmed to the newest `limit` |
| MemoryLaws.AddMessageLog | src/memory.js:69-81 | the new log keeps the newest entries in order, is never longer than a non-negative limit, and ends with the new message when limit ≥ 1 |
| MemoryLaws.AddMessageProfile | src/memory.js:64-83 | the author's profile exists; its name is refreshed by a non-empty username, its facts are kept, and lastSeen is the message time |
| MemoryLaws.RecordFrame | src/memory.js:69-83 | pushing, trimming and stamping touch only the one log and the author's profile |
| MemoryLaws.AddMessageFrame | src/memory.js:61-86 | every other guild, every other channel of the guild and every other user are left as they were |
| MemoryLaws.AddMessageKeepsWellFormed | src/memory.js:61-86 | if every log is within the limit and every fact list is duplicate-free, both still hold after `addMessage` |
| MemoryLaws.KeepLastAbsorb | src/memory.js:78-81 | trimming after every push equals trimming once after all of them |
| MemoryLaws.AppendEachIsKeepLast | src/memory.js:69-81 | a run of pushes, each followed by the trim, leaves the newest `limit` of old log plus new entries |
| MemoryLaws.NewestSurvive | src/memory.js:69-81 | when more than `limit` entries are pushed, the log ends up as exactly the newest `limit` of them |
| MemoryLaws.AddEachLog | src/memory.js:61-86 | a run of `addMessage` calls to one channel appends to its log as the push-and-trim run does |
| MemoryLaws.NewestSurviveDoc | src/memory.js:61-86 | after more than `limit` messages to one channel, its log is the newest `limit` of them, oldest first |
| MemoryLaws.LimitThreeExample | src/memory.js:78-81 | with limit 3, four messages A, B, C, D sent at any four times leave the log [B, C, D] |
| MemoryLaws.RecentWholeLog | src/memory.js:99 | a limit of 0, or one at least the log's length, returns the whole log |
| MemoryLaws.RememberFactProfile | src/memory.js:109-116 | the fact is on record afterwards, appended only when new; name and lastSeen are untouched and a new user starts nameless |
| MemoryLaws.RememberFactChangesIff | src/memory.js:112-115 | the document changes exactly when the fact was not yet known |
| MemoryLaws.RememberFactIdempotent | src/memory.js:112-113 | remembering the same fact twice equals remembering it once |
| MemoryLaws.RememberFactFrame | src/memory.js:109-116 | other guilds, all channels and all other users are unchanged |
| MemoryLaws.RememberFactKeepsWellFormed | src/memory.js:112-113 | fact lists stay duplicate-free and logs stay within the limit |
| MemoryLaws.ProfileTextShape | src/memory.js:124-132 | "" for an unknown user; else "Name: n" and "Facts: f1; f2" joined by " \| ", each only when non-empty |
| Gate.Addressed | src/index.js:71-79 | the message is in a guild, not from a bot, and in the voice-channel chat its guild is active in; stated by `Gate.Admit` |
| Gate.Admit | src/index.js:71-84 | a message gets through exactly when it is in a guild, not from a bot, in the voice-channel chat its guild is active in, and not blank; the text passed on is the trimmed, non-empty content |
| Gate.ComeTarget | src/index.js:146-161 | `/come` reaches the join exactly for a slash command named "come", used in a server by a member who is in a voice channel |
| Gate.Come | src/index.js:145-184 | a successful join maps the guild to the caller's channel; the map is set even if the confirmation fails; a failed join or an early reply leaves the map as it was |
| Gate.AfterVoiceState | src/index.js:187-200 | the map only ever loses the changed state's guild, and loses it exactly when the change concerns the bot and no connection remains |
| Gate.VoiceChatRegistry.constructor | src/index.js:52 | no guild is active at start-up |
| Gate.VoiceChatRegistry.OnCome | src/index.js:145-184 | the in-place handler produces the map and reply of `Come` |
| Gate.VoiceChatRegistry.OnVoiceStateUpdate | src/index.js:187-200 | the in-place listener produces the map of `AfterVoiceState` |
| Gate.ComeRedirects | src/index.js:174 | after a successful `/come`, exactly the summoned channel's chat is answered in that guild |
| Gate.ComeOtherGuilds | src/index.js:174 | `/come` changes nothing about which messages of other guilds are answered |
| Gate.LeaveSilences | src/index.js:195-199 | once the bot has left a guild's voice channel, nothing in that guild is answered |
| Gate.VoiceStateNeverAdmits | src/index.js:187-200 | a voice-state change never lets a message through that was not let through before, and leaves other guilds alone |
| Prompt.EscapeRegex | src/index.js:36-38 | the escaped name is longer by exactly one backslash per special character, and a name without special characters is unchanged |
| Prompt.EscapedLength | src/index.js:37 | an escaped pattern is at least one character longer than what it reads back as, per special character read |
| Prompt.EscapeRegexUnique | src/index.js:36-38 | the escaped name is the only escaped pattern of its length that reads back as the name: every special character gets a backslash and no other character does |
| Prompt.UnescapeEscape | src/index.js:36-38 | escaping loses nothing: reading the escaped pattern back gives the original name |
| Prompt.EscapeRegexEscaped | src/index.js:36-38 | every special character of the result is preceded by the backslash that escapes it |
| Prompt.SystemPrompt | src/index.js:81 | a set `SYSTEM_PROMPT`, even an empty one, wins; otherwise the built-in default |
| Prompt.ToChat | src/index.js:92-95 | the bot's own lines go back verbatim as "assistant"; anyone else's become "user" lines tagged "name: text" |
| Prompt.HistoryToChat | src/index.js:92-95 | one chat message per stored line, same order |
| Prompt.HistoryHasNoSystem | src/index.js:92-95 | the mapped history holds no system message |
| Prompt.HistoryToChatAppend | src/index.js:92-95 | mapping a concatenated history is concatenating the mapped parts |
| Prompt.BuildMessages | src/index.js:97-101 | system prompt plus instructions first, the mapped history in the middle, the tagged user turn last; only the first entry is a system message |
| Prompt.DisplayName | src/index.js:87 | nickname, else global name, else account name |
| Prompt.SanitizeAssistantReply | src/index.js:40-48 | missing or blank input gives ""; any result is "" or has no whitespace at either end |
| Prompt.SanitizeIdempotent | src/index.js:40-48 | cleaning a cleaned reply again changes nothing when the alias stripper leaves it alone |
| Handler.UserTurn | src/index.js:119-126 | the stored user turn carries the display name, role "user" and the trimmed text |
| Handler.BotTurn | src/index.js:128-135 | the stored bot turn carries the bot's id and name, role "assistant" and the cleaned reply |
| Handler.Cleaned | src/index.js:114-116 | the reply is sanitised only when stripping is enabled |
| Handler.OnMessageCreate | src/index.js:69-142 | an unadmitted message changes nothing; an admitted one gets the prompt built from the newest 30 lines; an empty answer stores and sends nothing and saves only what loading saves; otherwise the user turn then the bot turn are stored, one snapshot is saved after each, and the prefixed, trimmed reply is sent |
| Handler.TwoAppends | src/index.js:119-135 | after an exchange, with room for two lines, the channel's log ends with the user's turn followed by the bot's |
| Handler.ChatOfStored | src/index.js:92-95 | a stored user turn reads back tagged with the display name; a stored bot turn reads back verbatim |
| Handler.NextPromptEndsWith | src/index.js:89-101 | when a log ends with x then y, the next prompt's history ends with their chat forms in that order |

## Left out

- File I/O, JSON parsing and serialisation and `mkdir` are left out. The read's outcome is the parameter `read` (`None` for a missing or unparsable file). A write is an entry appended to `saved`. A file that parses but does not have the expected shape is not modelled.
- Time is left out: `Date.now()` is the parameter `now`.
- Concurrency is left out. Handlers run one at a time, with no interleaving at their `await` points.
- The `{messages: [...]}` wrapper around a channel's log is dropped: a channel is its log.
- Number handling is left out. The channel limit is an optional integer (`Number.isFinite` is read as "given"). NaN, infinities, fractional limits and the `Number(...)` parse of `MEMORY_CHANNEL_LIMIT` are not modelled.
- Ids are integers, not strings, and strings are sequences of characters with no UTF-16 or Unicode normalisation.
- Prompt.SanitizeAssistantReply: the case-insensitive regular expression that removes a leading "<alias>:" is the parameter `stripAlias`. Only the trimming around it is modelled.
- Handler.Cleaned: the case-insensitive reading of `REPLY_STRIP_ASSISTANT_NAME` is a boolean parameter. Building the alias list is left out.
- Handler.OnMessageCreate: several parts are parameters or left out:
  - the model call (src/kilocode.js is not part of this model) is the function `ask`;
  - sending the reply is the returned `sent`;
  - errors thrown by the model call, by the memory or by the reply are not modelled;
  - the statement that the exchange is what the next prompt ends with is split into `TwoAppends` and `NextPromptEndsWith`, stated on documents rather than on the method.
- Gate.Come: joining the voice channel and the confirmation reply are the booleans `joinThrows` and `ackThrows`, and the replies are tags. An exception from an early ephemeral reply is not modelled.
- Gate.AfterVoiceState: whether a voice connection remains (`getVoiceConnection`) is the boolean `connected`.
- The startup code of src/index.js (`DISCORD_TOKEN` check, client creation, login, ready log) is left out, as is logging. src/register-commands.js is not part of this model.
