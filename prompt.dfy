/**
 * The pure string and list building around the model call (src/index.js):
 * escaping alias names for a regular expression, turning stored history into
 * chat messages, laying out the message list, and the empty-input branch of
 * cleaning the reply.
 */
module Prompt {
  import opened Wrappers
  import opened Text
  import opened MemoryStore

  // ---------------------------------------------------------------------------
  // escapeRegex

  /** The characters `escapeRegex` escapes: `. * + ? ^ $ { } ( ) | [ ] \`. */
  predicate IsRegexSpecial(c: char) {
    c in {'.', '*', '+', '?', '^', '$', '{', '}', '(', ')', '|', '[', ']', '\\'}
  }

  /** How many special characters `s` holds. */
  function CountSpecial(s: string): nat {
    if s == [] then 0 else (if IsRegexSpecial(s[0]) then 1 else 0) + CountSpecial(s[1..])
  }

  /**
   * `escapeRegex`: a backslash before every special character, everything else
   * copied. The result is longer by exactly one backslash per special character;
   * with `Escaped` and `UnescapeEscape` this leaves ordinary characters unescaped.
   */
  function EscapeRegex(s: string): (r: string)
    ensures |r| == |s| + CountSpecial(s)
    ensures (forall i :: 0 <= i < |s| ==> !IsRegexSpecial(s[i])) ==> r == s
  {
    if s == [] then []
    else (if IsRegexSpecial(s[0]) then ['\\', s[0]] else [s[0]]) + EscapeRegex(s[1..])
  }

  /** Reading an escaped pattern back: a backslash stands for the character after it. */
  function Unescape(t: string): (r: string)
    ensures |r| <= |t|
  {
    if |t| >= 2 && t[0] == '\\' then [t[1]] + Unescape(t[2..])
    else if t == [] then []
    else [t[0]] + Unescape(t[1..])
  }

  /** Escaping loses nothing: the pattern reads back as the original name. */
  lemma {:induction false} UnescapeEscape(s: string)
    ensures Unescape(EscapeRegex(s)) == s
  {
    if s != [] {
      var rest := EscapeRegex(s[1..]);
      UnescapeEscape(s[1..]);
      if IsRegexSpecial(s[0]) {
        assert EscapeRegex(s) == ['\\', s[0]] + rest;
        assert (['\\', s[0]] + rest)[2..] == rest;
      } else {
        assert EscapeRegex(s) == [s[0]] + rest;
        assert ([s[0]] + rest)[1..] == rest;
      }
    }
  }

  /**
   * In an escaped pattern every special character is escaped: reading left to
   * right, a special character only ever appears right after a backslash that
   * introduces it.
   */
  predicate Escaped(t: string)
    decreases |t|
  {
    if t == [] then true
    else if t[0] == '\\' then |t| >= 2 && Escaped(t[2..])
    else !IsRegexSpecial(t[0]) && Escaped(t[1..])
  }

  lemma {:induction false} EscapeRegexEscaped(s: string)
    ensures Escaped(EscapeRegex(s))
  {
    if s != [] {
      var rest := EscapeRegex(s[1..]);
      EscapeRegexEscaped(s[1..]);
      if IsRegexSpecial(s[0]) {
        assert (['\\', s[0]] + rest)[2..] == rest;
      } else {
        assert ([s[0]] + rest)[1..] == rest;
      }
    }
  }

  /** An escaped pattern is at least one character longer than its reading per special character it reads as. */
  lemma {:induction false} EscapedLength(t: string)
    requires Escaped(t)
    ensures |t| >= |Unescape(t)| + CountSpecial(Unescape(t))
    decreases |t|
  {
    if t != [] {
      var u := Unescape(t);
      if t[0] == '\\' {
        EscapedLength(t[2..]);
        assert u == [t[1]] + Unescape(t[2..]) && u[1..] == Unescape(t[2..]);
      } else {
        EscapedLength(t[1..]);
        assert u == [t[0]] + Unescape(t[1..]) && u[1..] == Unescape(t[1..]);
      }
    }
  }

  /**
   * `EscapeRegex(s)` is the only escaped pattern of its length that reads back
   * as `s`: no ordinary character is escaped and no special one left bare.
   */
  lemma {:induction false} EscapeRegexUnique(s: string, t: string)
    requires Escaped(t) && Unescape(t) == s && |t| == |s| + CountSpecial(s)
    ensures t == EscapeRegex(s)
    decreases |t|
  {
    if t != [] {
      if t[0] == '\\' {
        var rest := t[2..];
        assert s == [t[1]] + Unescape(rest) && s[1..] == Unescape(rest);
        EscapedLength(rest);
        if IsRegexSpecial(s[0]) {
          EscapeRegexUnique(s[1..], rest);
          assert t == ['\\', s[0]] + rest;
        } else {
          assert false;
        }
      } else {
        var rest := t[1..];
        assert s == [t[0]] + Unescape(rest) && s[1..] == Unescape(rest);
        EscapeRegexUnique(s[1..], rest);
        assert t == [s[0]] + rest;
      }
    }
  }

  // ---------------------------------------------------------------------------
  // The chat messages sent to the model

  /** One entry of the message list (`{role, content}`). */
  datatype ChatMessage = ChatMessage(role: string, content: string)

  /** The default system prompt, used when `SYSTEM_PROMPT` is unset. */
  const DEFAULT_SYSTEM_PROMPT := "You are Kanna Akizuki, a friendly, helpful AI assistant for this Discord server. Keep replies concise and helpful."

  /** The instructions appended to every system prompt, after a newline. */
  const SYSTEM_SUFFIX := "\nAlways keep track of who said what. Address users by their display names. Do not prefix your replies with your name (e.g., \"Kanna Akizuki:\"). Reply directly. The following context includes speaker tags like \"Name: message\"."

  /** `SYSTEM_PROMPT ?? default`: an empty but set variable is kept. */
  function SystemPrompt(env: Option<string>): (r: string)
    ensures env.Some? ==> r == env.value
    ensures env.None? ==> r == DEFAULT_SYSTEM_PROMPT
  {
    env.GetOr(DEFAULT_SYSTEM_PROMPT)
  }

  /** `"<name>: <text>"`, the speaker-tagged form of a line. */
  function Tagged(name: string, text: string): string {
    name + ": " + text
  }

  /** One stored line as a chat message: the bot's own lines verbatim, anyone else's tagged with their name. */
  function ToChat(h: Message): (r: ChatMessage)
    ensures r.role == "assistant" || r.role == "user"
    ensures h.role == "assistant" <==> r == ChatMessage("assistant", h.text)
    ensures h.role != "assistant" <==> r == ChatMessage("user", Tagged(h.name, h.text))
  {
    if h.role == "assistant" then ChatMessage("assistant", h.text)
    else ChatMessage("user", Tagged(h.name, h.text))
  }

  /** `history.map(...)`: one chat message per stored line, in the same order. */
  function HistoryToChat(history: seq<Message>): (r: seq<ChatMessage>)
    ensures |r| == |history|
    ensures forall i :: 0 <= i < |history| ==> r[i] == ToChat(history[i])
  {
    seq(|history|, i requires 0 <= i < |history| => ToChat(history[i]))
  }

  /** The mapped history never contains a system message. */
  lemma HistoryHasNoSystem(history: seq<Message>)
    ensures forall i :: 0 <= i < |history| ==> HistoryToChat(history)[i].role != "system"
  {
  }

  /** Mapping a log split in two is mapping each part. */
  lemma HistoryToChatAppend(a: seq<Message>, b: seq<Message>)
    ensures HistoryToChat(a + b) == HistoryToChat(a) + HistoryToChat(b)
  {
  }

  /** The message list: the system prompt, the mapped history, then the new user turn. */
  function BuildMessages(system: string, history: seq<Message>, displayName: string, userText: string)
    : (r: seq<ChatMessage>)
    ensures |r| == |history| + 2
    ensures r[0] == ChatMessage("system", system + SYSTEM_SUFFIX)
    ensures r[1..|r| - 1] == HistoryToChat(history)
    ensures r[|r| - 1] == ChatMessage("user", Tagged(displayName, userText))
    ensures forall i :: 0 <= i < |r| ==> (r[i].role == "system" <==> i == 0)
  {
    var mapped := HistoryToChat(history);
    HistoryHasNoSystem(history);
    var r := [ChatMessage("system", system + SYSTEM_SUFFIX)] + mapped + [ChatMessage("user", Tagged(displayName, userText))];
    assert r[1..|r| - 1] == mapped;
    r
  }

  /** `member?.displayName ?? author.globalName ?? author.username`. */
  function DisplayName(memberName: Option<string>, globalName: Option<string>, username: string): (r: string)
    ensures memberName.Some? ==> r == memberName.value
    ensures memberName.None? && globalName.Some? ==> r == globalName.value
    ensures memberName.None? && globalName.None? ==> r == username
  {
    memberName.GetOr(globalName.GetOr(username))
  }

  // ---------------------------------------------------------------------------
  // sanitizeAssistantReply

  /**
   * `sanitizeAssistantReply(text, names)`. The removal of a leading
   * "<alias>:" by a case-insensitive regular expression is the parameter
   * `stripAlias`; what is modelled is the trimming around it and the early
   * return for missing or blank input.
   */
  function SanitizeAssistantReply(text: Option<string>, stripAlias: string -> string): (r: string)
    ensures AllSpace(text.GetOr("")) ==> r == ""
    ensures r == "" || (!IsSpace(r[0]) && !IsSpace(r[|r| - 1]))
  {
    var trimmed := Trim(text.GetOr(""));
    TrimEmptyIff(text.GetOr(""));
    if trimmed == "" then trimmed else Trim(stripAlias(trimmed))
  }

  /** Cleaning a cleaned reply again changes nothing when the alias stripper leaves it alone. */
  lemma SanitizeIdempotent(text: Option<string>, stripAlias: string -> string)
    requires stripAlias(SanitizeAssistantReply(text, stripAlias)) == SanitizeAssistantReply(text, stripAlias)
    ensures SanitizeAssistantReply(Some(SanitizeAssistantReply(text, stripAlias)), stripAlias)
         == SanitizeAssistantReply(text, stripAlias)
  {
    var r := SanitizeAssistantReply(text, stripAlias);
    if r != "" {
      TrimIdempotent(stripAlias(Trim(text.GetOr(""))));
    }
  }
}
