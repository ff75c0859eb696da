/**
 * What the operations of src/memory.js guarantee, stated over the document
 * functions of `MemoryStore` (the methods of `Memory` are proved equal to them).
 */
module MemoryLaws {
  import opened Wrappers
  import opened Text
  import opened Discord
  import opened MemoryStore

  // ---------------------------------------------------------------------------
  // _ensureGuild

  /** `_ensureGuild` keeps an existing guild as it is, adds an empty one otherwise, and touches no other guild. */
  lemma EnsureGuildFrame(doc: Document, g: Snowflake)
    ensures var r := EnsureGuildDoc(doc, g);
      && r - {g} == doc - {g}
      && (g in doc ==> r[g] == doc[g])
      && (g !in doc ==> r[g] == EMPTY_GUILD)
  {
  }

  // ---------------------------------------------------------------------------
  // _ensureUser

  /**
   * A missing user is created as `{name: username, facts: [], lastSeen: 0}`;
   * an existing one keeps facts and `lastSeen`, and its name is replaced only
   * by a non-empty `username`.
   */
  lemma EnsureUserProfile(doc: Document, g: Snowflake, u: Snowflake, username: string)
    ensures ProfileOf(doc, g, u).None? ==>
      ProfileOf(EnsureUserDoc(doc, g, u, username), g, u) == Some(Profile(username, [], 0))
    ensures ProfileOf(doc, g, u).Some? ==>
      var p := ProfileOf(doc, g, u).value;
      ProfileOf(EnsureUserDoc(doc, g, u, username), g, u)
        == Some(Profile(if username != "" then username else p.name, p.facts, p.lastSeen))
  {
    assert UsersOf(EnsureGuildDoc(doc, g), g) == UsersOf(doc, g);
  }

  /** `_ensureUser` touches only the one profile. */
  lemma EnsureUserFrame(doc: Document, g: Snowflake, u: Snowflake, username: string)
    ensures
      var r := EnsureUserDoc(doc, g, u, username);
      && r - {g} == doc - {g}
      && r[g].channels == ChannelsOf(doc, g)
      && r[g].users - {u} == UsersOf(doc, g) - {u}
  {
    var d := EnsureGuildDoc(doc, g);
    assert d - {g} == doc - {g};
    assert d[g].channels == ChannelsOf(doc, g);
    assert d[g].users == UsersOf(doc, g);
  }

  // ---------------------------------------------------------------------------
  // _ensureChannel

  /** `_ensureChannel` touches only the one channel, whose log reads the same. */
  lemma EnsureChannelFrame(doc: Document, g: Snowflake, c: Snowflake)
    ensures
      var r := EnsureChannelDoc(doc, g, c);
      && r - {g} == doc - {g}
      && r[g].users == UsersOf(doc, g)
      && r[g].channels - {c} == ChannelsOf(doc, g) - {c}
      && r[g].channels[c] == LogOf(doc, g, c)
  {
    var d := EnsureGuildDoc(doc, g);
    assert d - {g} == doc - {g};
    assert d[g].channels == ChannelsOf(doc, g);
    assert d[g].users == UsersOf(doc, g);
  }

  // ---------------------------------------------------------------------------
  // addMessage

  /** What `addMessage`'s `_ensure*` calls leave behind. */
  lemma PrepareFrame(doc: Document, m: Incoming)
    ensures
      var r := PrepareDoc(doc, m);
      && r - {m.guildId} == doc - {m.guildId}
      && r[m.guildId].channels - {m.channelId} == ChannelsOf(doc, m.guildId) - {m.channelId}
      && r[m.guildId].channels[m.channelId] == LogOf(doc, m.guildId, m.channelId)
      && r[m.guildId].users == EnsureUserDoc(doc, m.guildId, m.userId, m.username)[m.guildId].users
  {
    var g := m.guildId;
    var d0 := EnsureGuildDoc(doc, g);
    var d1 := EnsureUserDoc(d0, g, m.userId, m.username);
    assert d1 == EnsureUserDoc(doc, g, m.userId, m.username);
    EnsureUserFrame(doc, g, m.userId, m.username);
    EnsureChannelFrame(d1, g, m.channelId);
  }

  /** The channel's new log is the old one plus the stored message, trimmed from the front. */
  lemma AddMessageLogIs(doc: Document, m: Incoming, now: int, limit: int)
    ensures m.channelId in ChannelsOf(AddMessageDoc(doc, m, now, limit), m.guildId)
    ensures LogOf(AddMessageDoc(doc, m, now, limit), m.guildId, m.channelId)
      == KeepLast(LogOf(doc, m.guildId, m.channelId) + [StoredMessage(m, now)], limit)
  {
    PrepareFrame(doc, m);
  }

  /**
   * The channel's new log is the newest `min(n + 1, limit)` entries of the old
   * log followed by the stored message, in their original order; so it never
   * exceeds a non-negative limit, and for a limit of at least one the new
   * message is last.
   */
  lemma AddMessageLog(doc: Document, m: Incoming, now: int, limit: int)
    ensures
      var full := LogOf(doc, m.guildId, m.channelId) + [StoredMessage(m, now)];
      var log := LogOf(AddMessageDoc(doc, m, now, limit), m.guildId, m.channelId);
      && m.channelId in ChannelsOf(AddMessageDoc(doc, m, now, limit), m.guildId)
      && |log| == Min(|full|, Max(limit, 0))
      && log == full[|full| - |log|..]
      && (limit >= 0 ==> |log| <= limit)
      && (limit >= 1 ==> log[|log| - 1] == StoredMessage(m, now))
  {
    AddMessageLogIs(doc, m, now, limit);
    var full := LogOf(doc, m.guildId, m.channelId) + [StoredMessage(m, now)];
    var log := KeepLast(full, limit);
    if limit >= 1 {
      assert log[|log| - 1] == full[|full| - 1];
    }
  }

  /** The author's profile: name refreshed as by `_ensureUser`, facts kept, `lastSeen` set to the message time. */
  lemma AddMessageProfile(doc: Document, m: Incoming, now: int, limit: int)
    ensures
      var before := ProfileOf(doc, m.guildId, m.userId);
      var oldName := if before.Some? then before.value.name else "";
      var after := ProfileOf(AddMessageDoc(doc, m, now, limit), m.guildId, m.userId);
      && after.Some?
      && after.value.name == (if m.username != "" then m.username else oldName)
      && after.value.facts == (if before.Some? then before.value.facts else [])
      && after.value.lastSeen == m.ts.GetOr(now)
  {
    EnsureUserProfile(doc, m.guildId, m.userId, m.username);
    PrepareFrame(doc, m);
    var d := PrepareDoc(doc, m);
    assert ProfileOf(EnsureUserDoc(doc, m.guildId, m.userId, m.username), m.guildId, m.userId).value == d[m.guildId].users[m.userId];
  }

  /** Recording touches only the one log and the author's `lastSeen`. */
  lemma RecordFrame(d: Document, g: Snowflake, c: Snowflake, msg: Message, limit: int)
    requires g in d && c in d[g].channels && msg.userId in d[g].users
    ensures
      var r := Record(d, g, c, msg, limit);
      && r - {g} == d - {g}
      && r[g].channels - {c} == d[g].channels - {c}
      && r[g].users - {msg.userId} == d[g].users - {msg.userId}
  {
  }

  /** Every other guild, every other channel of the guild and every other user of the guild are left as they were. */
  lemma AddMessageFrame(doc: Document, m: Incoming, now: int, limit: int)
    ensures
      var r := AddMessageDoc(doc, m, now, limit);
      && m.guildId in r
      && r - {m.guildId} == doc - {m.guildId}
      && r[m.guildId].channels - {m.channelId} == ChannelsOf(doc, m.guildId) - {m.channelId}
      && r[m.guildId].users - {m.userId} == UsersOf(doc, m.guildId) - {m.userId}
  {
    var g, c, u := m.guildId, m.channelId, m.userId;
    var d := PrepareDoc(doc, m);
    var msg := StoredMessage(m, now);
    var r := Record(d, g, c, msg, limit);
    assert AddMessageDoc(doc, m, now, limit) == r by {
      AddMessageDocIs(doc, m, now, limit);
    }
    RecordFrame(d, g, c, msg, limit);
    assert d - {g} == doc - {g} && d[g].channels - {c} == ChannelsOf(doc, g) - {c} by {
      PrepareFrame(doc, m);
    }
    assert d[g].users - {u} == UsersOf(doc, g) - {u} by {
      PrepareFrame(doc, m);
      EnsureUserFrame(doc, g, u, m.username);
    }
  }

  /** `addMessage` keeps every log within the limit and every fact list duplicate-free. */
  lemma AddMessageKeepsWellFormed(doc: Document, m: Incoming, now: int, limit: int)
    requires WellFormed(doc, limit)
    ensures WellFormed(AddMessageDoc(doc, m, now, limit), limit)
  {
    var r := AddMessageDoc(doc, m, now, limit);
    AddMessageLog(doc, m, now, limit);
    AddMessageFrame(doc, m, now, limit);
    AddMessageProfile(doc, m, now, limit);
    forall g, c | g in r && c in r[g].channels
      ensures |r[g].channels[c]| <= Max(limit, 0)
    {
      if g != m.guildId {
        assert r[g] == (r - {m.guildId})[g];
      } else if c != m.channelId {
        assert r[g].channels[c] == (r[g].channels - {m.channelId})[c];
      } else {
        assert r[g].channels[c] == LogOf(r, g, c);
      }
    }
    forall g, u | g in r && u in r[g].users
      ensures NoDuplicates(r[g].users[u].facts)
    {
      if g != m.guildId {
        assert r[g] == (r - {m.guildId})[g];
      } else if u != m.userId {
        assert r[g].users[u] == (r[g].users - {m.userId})[u];
      } else {
        assert r[g].users[u] == ProfileOf(r, g, u).value;
      }
    }
  }

  /** Trimming before appending more and trimming again is the same as trimming once at the end. */
  lemma KeepLastAbsorb<T>(s: seq<T>, t: seq<T>, limit: int)
    ensures KeepLast(KeepLast(s, limit) + t, limit) == KeepLast(s + t, limit)
  {
    var k := KeepLast(s, limit);
    var a := KeepLast(k + t, limit);
    var b := KeepLast(s + t, limit);
    if limit > 0 {
      assert |a| == |b|;
      forall i | 0 <= i < |a| ensures a[i] == b[i] {
        var j := |k + t| - |a| + i;
        var j' := |s + t| - |b| + i;
        assert a[i] == (k + t)[j];
        assert b[i] == (s + t)[j'];
        if j' >= |s| {
          assert (s + t)[j'] == t[j' - |s|] == (k + t)[j];
        } else {
          assert (k + t)[j] == k[j] == s[|s| - |k| + j];
        }
      }
    }
  }

  /** A channel log after appending each of `ms` in turn with `addMessage`'s trim. */
  function AppendEach<T>(log: seq<T>, ms: seq<T>, limit: int): seq<T>
    decreases |ms|
  {
    if |ms| == 0 then log else AppendEach(KeepLast(log + [ms[0]], limit), ms[1..], limit)
  }

  // Proof step for `AppendEachIsKeepLast`.
  lemma SplitFirst<T>(log: seq<T>, ms: seq<T>)
    requires |ms| > 0
    ensures log + [ms[0]] + ms[1..] == log + ms
  {
  }

  /** Appending one at a time with trimming is appending all and trimming once (for at least one append). */
  lemma {:induction false} AppendEachIsKeepLast<T>(log: seq<T>, ms: seq<T>, limit: int)
    requires |ms| > 0
    ensures AppendEach(log, ms, limit) == KeepLast(log + ms, limit)
    decreases |ms|
  {
    SplitFirst(log, ms);
    if |ms| > 1 {
      AppendEachIsKeepLast(KeepLast(log + [ms[0]], limit), ms[1..], limit);
      KeepLastAbsorb(log + [ms[0]], ms[1..], limit);
    }
  }

  /** After more than `limit` appends, the log holds exactly the newest `limit` of them, in order. */
  lemma NewestSurvive<T>(log: seq<T>, ms: seq<T>, limit: int)
    requires 0 <= limit < |ms|
    ensures AppendEach(log, ms, limit) == ms[|ms| - limit..]
  {
    AppendEachIsKeepLast(log, ms, limit);
    assert (log + ms)[|log + ms| - limit..] == ms[|ms| - limit..];
  }

  /**
   * The document after `addMessage` is called with each of `ms` in turn, the
   * clock reading `nows[i]` at the `i`-th call.
   */
  function AddEach(doc: Document, ms: seq<Incoming>, nows: seq<int>, limit: int): Document
    requires |nows| == |ms|
    decreases |ms|
  {
    if |ms| == 0 then doc
    else
      assert |nows[1..]| == |ms[1..]|;
      AddEach(AddMessageDoc(doc, ms[0], nows[0], limit), ms[1..], nows[1..], limit)
  }

  /** The messages `addMessage` stores for each of `ms`. */
  function StoredAll(ms: seq<Incoming>, nows: seq<int>): (r: seq<Message>)
    requires |nows| == |ms|
    ensures |r| == |ms| && forall i :: 0 <= i < |ms| ==> r[i] == StoredMessage(ms[i], nows[i])
  {
    seq(|ms|, i requires 0 <= i < |ms| => StoredMessage(ms[i], nows[i]))
  }

  /** All of `ms` go to channel `c` of guild `g`. */
  predicate OneChannel(ms: seq<Incoming>, g: Snowflake, c: Snowflake) {
    forall i :: 0 <= i < |ms| ==> ms[i].guildId == g && ms[i].channelId == c
  }

  // Proof step for `AddEachLog`.
  lemma OneChannelTail(ms: seq<Incoming>, g: Snowflake, c: Snowflake)
    requires |ms| > 0 && OneChannel(ms, g, c)
    ensures ms[0].guildId == g && ms[0].channelId == c && OneChannel(ms[1..], g, c)
  {
  }

  // Proof step for `AddEachLog`.
  lemma StoredAllTail(ms: seq<Incoming>, nows: seq<int>)
    requires |nows| == |ms| > 0
    ensures StoredAll(ms, nows)[1..] == StoredAll(ms[1..], nows[1..])
  {
  }

  /** Messages sent to one channel build its log exactly as `AppendEach` does. */
  lemma {:induction false} AddEachLog(doc: Document, ms: seq<Incoming>, nows: seq<int>, limit: int, g: Snowflake, c: Snowflake)
    requires |nows| == |ms| && OneChannel(ms, g, c)
    ensures LogOf(AddEach(doc, ms, nows, limit), g, c) == AppendEach(LogOf(doc, g, c), StoredAll(ms, nows), limit)
    decreases |ms|
  {
    if |ms| > 0 {
      OneChannelTail(ms, g, c);
      StoredAllTail(ms, nows);
      var next := AddMessageDoc(doc, ms[0], nows[0], limit);
      AddMessageLogIs(doc, ms[0], nows[0], limit);
      AddEachLog(next, ms[1..], nows[1..], limit, g, c);
    }
  }

  // Proof step for `NewestSurviveDoc`.
  lemma NewestStored(log: seq<Message>, ms: seq<Incoming>, nows: seq<int>, limit: int)
    requires |nows| == |ms| && 0 <= limit < |ms|
    ensures AppendEach(log, StoredAll(ms, nows), limit) == StoredAll(ms, nows)[|ms| - limit..]
  {
    NewestSurvive(log, StoredAll(ms, nows), limit);
  }

  /** More than `limit` messages to one channel leave exactly the newest `limit` of them, in order. */
  lemma NewestSurviveDoc(doc: Document, ms: seq<Incoming>, nows: seq<int>, limit: int, g: Snowflake, c: Snowflake)
    requires |nows| == |ms| && OneChannel(ms, g, c)
    requires 0 <= limit < |ms|
    ensures LogOf(AddEach(doc, ms, nows, limit), g, c) == StoredAll(ms, nows)[|ms| - limit..]
  {
    AddEachLog(doc, ms, nows, limit, g, c);
    NewestStored(LogOf(doc, g, c), ms, nows, limit);
  }

  /** With a limit of 3, sending A, B, C, D to one channel (at times t1..t4) leaves [B, C, D]. */
  lemma LimitThreeExample(doc: Document, a: Incoming, b: Incoming, c: Incoming, d: Incoming, t1: int, t2: int, t3: int, t4: int)
    requires a.guildId == b.guildId == c.guildId == d.guildId
    requires a.channelId == b.channelId == c.channelId == d.channelId
    ensures LogOf(AddEach(doc, [a, b, c, d], [t1, t2, t3, t4], 3), a.guildId, a.channelId)
      == [StoredMessage(b, t2), StoredMessage(c, t3), StoredMessage(d, t4)]
  {
    var ms, nows := [a, b, c, d], [t1, t2, t3, t4];
    assert OneChannel(ms, a.guildId, a.channelId) && StoredAll(ms, nows)[|ms| - 3..]
      == [StoredMessage(b, t2), StoredMessage(c, t3), StoredMessage(d, t4)];
    NewestSurviveDoc(doc, ms, nows, 3, a.guildId, a.channelId);
  }

  // ---------------------------------------------------------------------------
  // getRecentChannelMessages

  /** With a limit of at least the log's length (or 0, as `slice(-0)`), the whole log is returned. */
  lemma RecentWholeLog(doc: Document, g: Snowflake, c: Snowflake, limit: int)
    requires limit == 0 || limit >= |LogOf(doc, g, c)|
    ensures RecentMessages(doc, g, c, limit) == LogOf(doc, g, c)
  {
  }

  // ---------------------------------------------------------------------------
  // rememberUserFact

  /**
   * The fact is on record afterwards: appended at the end when new, otherwise
   * nothing moves; the name and `lastSeen` of an existing user are untouched
   * (the empty user name never overwrites), and a new user starts nameless.
   */
  lemma RememberFactProfile(doc: Document, g: Snowflake, u: Snowflake, fact: string)
    ensures
      var before := ProfileOf(doc, g, u);
      var was := if before.Some? then before.value else Profile("", [], 0);
      var after := ProfileOf(RememberFactDoc(doc, g, u, fact), g, u);
      && after.Some?
      && after.value.name == was.name
      && after.value.lastSeen == was.lastSeen
      && after.value.facts == (if fact in was.facts then was.facts else was.facts + [fact])
  {
    EnsureUserProfile(doc, g, u, "");
  }

  /** The document changes (and a snapshot is written) exactly when the fact was not yet known. */
  lemma RememberFactChangesIff(doc: Document, g: Snowflake, u: Snowflake, fact: string)
    ensures RememberFactDoc(doc, g, u, fact) == doc <==> FactKnown(doc, g, u, fact)
  {
    RememberFactProfile(doc, g, u, fact);
    if FactKnown(doc, g, u, fact) {
      var d := EnsureUserDoc(doc, g, u, "");
      EnsureUserFrame(doc, g, u, "");
      EnsureUserProfile(doc, g, u, "");
      assert d[g].users == doc[g].users;
      assert d[g] == doc[g];
      assert d == doc;
    } else {
      var r := RememberFactDoc(doc, g, u, fact);
      assert ProfileOf(r, g, u) != ProfileOf(doc, g, u);
    }
  }

  /** Remembering the same fact twice is remembering it once. */
  lemma RememberFactIdempotent(doc: Document, g: Snowflake, u: Snowflake, fact: string)
    ensures
      var once := RememberFactDoc(doc, g, u, fact);
      RememberFactDoc(once, g, u, fact) == once
  {
    RememberFactProfile(doc, g, u, fact);
    RememberFactChangesIff(RememberFactDoc(doc, g, u, fact), g, u, fact);
  }

  /** Everything but the one profile is left as it was. */
  lemma RememberFactFrame(doc: Document, g: Snowflake, u: Snowflake, fact: string)
    ensures
      var r := RememberFactDoc(doc, g, u, fact);
      && r - {g} == doc - {g}
      && ChannelsOf(r, g) == ChannelsOf(doc, g)
      && UsersOf(r, g) - {u} == UsersOf(doc, g) - {u}
  {
    var d := EnsureUserDoc(doc, g, u, "");
    EnsureUserFrame(doc, g, u, "");
    var r := RememberFactDoc(doc, g, u, fact);
    assert r[g].users - {u} == d[g].users - {u};
  }

  /** A duplicate-free fact list stays duplicate-free. */
  lemma RememberFactKeepsWellFormed(doc: Document, g: Snowflake, u: Snowflake, fact: string, limit: int)
    requires WellFormed(doc, limit)
    ensures WellFormed(RememberFactDoc(doc, g, u, fact), limit)
  {
    var r := RememberFactDoc(doc, g, u, fact);
    RememberFactProfile(doc, g, u, fact);
    RememberFactFrame(doc, g, u, fact);
    forall x, c | x in r && c in r[x].channels
      ensures |r[x].channels[c]| <= Max(limit, 0)
    {
      if x != g {
        assert r[x] == (r - {g})[x];
      } else {
        assert r[x].channels[c] == ChannelsOf(doc, g)[c];
      }
    }
    forall x, v | x in r && v in r[x].users
      ensures NoDuplicates(r[x].users[v].facts)
    {
      if x != g {
        assert r[x] == (r - {g})[x];
      } else if v != u {
        assert r[x].users[v] == UsersOf(r, g)[v] == (UsersOf(r, g) - {u})[v];
      } else {
        var facts := r[x].users[v].facts;
        assert facts == ProfileOf(r, g, u).value.facts;
        var before := ProfileOf(doc, g, u);
        if before.Some? {
          assert NoDuplicates(doc[g].users[u].facts);
        }
      }
    }
  }

  // ---------------------------------------------------------------------------
  // getUserProfileText

  /**
   * "" for an unknown user; otherwise "Name: <name>" and "Facts: <f1>; <f2>; ..."
   * joined by " | ", each part present only when non-empty.
   */
  lemma ProfileTextShape(doc: Document, g: Snowflake, u: Snowflake)
    ensures ProfileOf(doc, g, u).None? ==> ProfileText(doc, g, u) == ""
    ensures ProfileOf(doc, g, u).Some? ==>
      var p := ProfileOf(doc, g, u).value;
      var facts := "Facts: " + Join(p.facts, "; ");
      ProfileText(doc, g, u) ==
        if p.name == "" && p.facts == [] then ""
        else if p.facts == [] then "Name: " + p.name
        else if p.name == "" then facts
        else "Name: " + p.name + " | " + facts
  {
    if ProfileOf(doc, g, u).Some? {
      var p := ProfileOf(doc, g, u).value;
      if p.name != "" && p.facts != [] {
        JoinSnoc(["Name: " + p.name], " | ", "Facts: " + Join(p.facts, "; "));
      }
    }
  }
}
