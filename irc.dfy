/**
 The chat-protocol side of the reader (`AnonymousTwitchReader` in svm.py):
 decoding one inbound line in Twitch's dialect of the IRC `PRIVMSG` command
 (section 3.3.1 of RFC 2812), the per-line decision between answering a
 keepalive, processing a chat post and dropping the line, the fixed
 anonymous handshake, and the normalisation of the configured channel list.
 */
module Irc {
  import opened Wrappers
  import opened Strings

  /** A decoded chat post: who wrote what in which channel. */
  datatype ChatEvent = ChatEvent(user: string, channel: string, text: string)

  /**
   `parse_irc_message`: a line that mentions `PRIVMSG`, does not start with
   `PING`, has at least three single spaces and starts with `:` is cut at its
   first three spaces; the user is the first token without its `:` and up to
   the first `!`, the channel is the third token with one leading `#` removed,
   and the text is everything after the third space with one leading `:`
   removed. The command token itself is not looked at. Every other line gives
   `None`, which stands for the source's `(None, None, None)`.
   */
  function ParseIrcMessage(raw: string): (r: Option<ChatEvent>)
    ensures r.Some? ==> '!' !in r.value.user
  {
    if Contains(raw, "PRIVMSG") && !("PING" <= raw) then
      var parts := SplitN(raw, ' ', 3);
      if |parts| >= 4 && ":" <= parts[0] then
        Some(ChatEvent(UpTo(parts[0][1..], '!'), DropLeading(parts[2], '#'), DropLeading(parts[3], ':')))
      else
        None
    else
      None
  }

  /** The line a Twitch server sends for `text` posted by `nick` in `channel`. */
  function PrivmsgLine(nick: string, hostmask: string, channel: string, text: string): string
  {
    ":" + nick + "!" + hostmask + " PRIVMSG #" + channel + " :" + text
  }

  /** The parser accepts exactly the lines its guards let through. */
  lemma {:induction false} ParseAcceptsExactly(raw: string)
    ensures ParseIrcMessage(raw).Some? <==>
      && Contains(raw, "PRIVMSG")
      && !("PING" <= raw)
      && CountChar(raw, ' ') >= 3
      && ":" <= raw
  {
    SplitNLength(raw, ' ', 3);
    var parts := SplitN(raw, ' ', 3);
    if CountChar(raw, ' ') >= 3 {
      var f := Find(raw, ' ');
      if f.None? {
        CountCharAbsent(raw, ' ');
      } else {
        var i := f.value;
        SplitNStep(raw, ' ', 3, i);
        assert parts[0] == raw[..i];
        if ":" <= raw {
          assert raw[0] == ':' && i > 0;
          assert ":" <= raw[..i];
        }
        if ":" <= raw[..i] {
          assert raw[0] == raw[..i][0];
        }
      }
    }
  }

  /** The parser's result once the line is known to be cut into these four pieces. */
  lemma {:induction false} ParseFromPieces(raw: string, prefix: string, command: string, chanTok: string, textTok: string)
    requires Contains(raw, "PRIVMSG") && !("PING" <= raw)
    requires SplitN(raw, ' ', 3) == [prefix, command, chanTok, textTok]
    requires ":" <= prefix
    ensures ParseIrcMessage(raw) == Some(ChatEvent(UpTo(prefix[1..], '!'), DropLeading(chanTok, '#'), DropLeading(textTok, ':')))
  {
  }

  /** A line made of three space-free tokens and a rest is cut into exactly those four pieces. */
  lemma {:induction false} SplitFourPieces(t0: string, t1: string, t2: string, rest: string)
    requires ' ' !in t0 && ' ' !in t1 && ' ' !in t2
    ensures SplitN(t0 + [' '] + (t1 + [' '] + (t2 + [' '] + rest)), ' ', 3) == [t0, t1, t2, rest]
  {
    calc {
      SplitN(t0 + [' '] + (t1 + [' '] + (t2 + [' '] + rest)), ' ', 3);
      { SplitNFirst(t0, ' ', t1 + [' '] + (t2 + [' '] + rest), 3); }
      [t0] + SplitN(t1 + [' '] + (t2 + [' '] + rest), ' ', 2);
      { SplitNFirst(t1, ' ', t2 + [' '] + rest, 2); }
      [t0] + ([t1] + SplitN(t2 + [' '] + rest, ' ', 1));
      { SplitNFirst(t2, ' ', rest, 1); }
      [t0] + ([t1] + ([t2] + SplitN(rest, ' ', 0)));
      [t0, t1, t2, rest];
    }
  }

  /** The server's line, regrouped into its four space-separated pieces. */
  lemma {:induction false} PrivmsgLinePieces(nick: string, hostmask: string, channel: string, text: string)
    ensures var cmd: string := "PRIVMSG";
      PrivmsgLine(nick, hostmask, channel, text)
        == (":" + nick + "!" + hostmask) + [' '] + (cmd + [' '] + (("#" + channel) + [' '] + (":" + text)))
  {
  }

  lemma {:induction false} SpaceFreePrefix(nick: string, hostmask: string)
    requires ' ' !in nick && ' ' !in hostmask
    ensures ' ' !in ":" + nick + "!" + hostmask
  {
    var prefix := ":" + nick + "!" + hostmask;
    forall j | 0 <= j < |prefix| ensures prefix[j] != ' ' {
      if 1 <= j <= |nick| {
        assert prefix[j] == nick[j - 1];
      } else if |nick| + 2 <= j {
        assert prefix[j] == hostmask[j - |nick| - 2];
      }
    }
  }

  lemma {:induction false} UserOfPrefix(nick: string, hostmask: string)
    requires '!' !in nick
    ensures UpTo((":" + nick + "!" + hostmask)[1..], '!') == nick
  {
    var s := nick + ['!'] + hostmask;
    assert (":" + nick + "!" + hostmask)[1..] == s;
    assert Find(s, '!') == Some(|nick|) by {
      assert s[|nick|] == '!';
      assert forall j :: 0 <= j < |nick| ==> s[j] == nick[j];
    }
    assert s[..|nick|] == nick;
  }

  /**
   Decoding inverts the server's encoding: the nickname (free of spaces and
   `!`), the channel (free of spaces) and the text, spaces and leading colons
   included, come back unchanged.
   */
  lemma {:induction false} ParseRoundTrip(nick: string, hostmask: string, channel: string, text: string)
    requires ' ' !in nick && '!' !in nick && ' ' !in hostmask && ' ' !in channel
    ensures ParseIrcMessage(PrivmsgLine(nick, hostmask, channel, text)) == Some(ChatEvent(nick, channel, text))
  {
    var line := PrivmsgLine(nick, hostmask, channel, text);
    var prefix := ":" + nick + "!" + hostmask;
    var cmd: string := "PRIVMSG";
    var chanTok := "#" + channel;
    var textTok := ":" + text;
    SpaceFreePrefix(nick, hostmask);
    assert ' ' !in chanTok by {
      forall j | 1 <= j < |chanTok| ensures chanTok[j] != ' ' {
        assert chanTok[j] == channel[j - 1];
      }
    }
    PrivmsgLinePieces(nick, hostmask, channel, text);
    SplitFourPieces(prefix, cmd, chanTok, textTok);
    PrivmsgLineGuards(nick, hostmask, channel, text);
    ParseFromPieces(line, prefix, cmd, chanTok, textTok);
    UserOfPrefix(nick, hostmask);
    DropLeadingMarker('#', channel);
    DropLeadingMarker(':', text);
  }

  /** A chat line names `PRIVMSG` and, starting with `:`, cannot start with `PING`. */
  lemma {:induction false} PrivmsgLineGuards(nick: string, hostmask: string, channel: string, text: string)
    ensures Contains(PrivmsgLine(nick, hostmask, channel, text), "PRIVMSG")
    ensures !("PING" <= PrivmsgLine(nick, hostmask, channel, text))
  {
    var line := PrivmsgLine(nick, hostmask, channel, text);
    var prefix := ":" + nick + "!" + hostmask;
    var cmd: string := "PRIVMSG";
    PrivmsgLinePieces(nick, hostmask, channel, text);
    assert OccursAt(line, "PRIVMSG", |prefix| + 1) by {
      assert line[|prefix| + 1..|prefix| + 8] == cmd;
    }
    assert line[0] == ':';
  }

  lemma {:induction false} DropLeadingMarker(c: char, s: string)
    ensures DropLeading([c] + s, c) == s
  {
    assert ([c] + s)[1..] == s;
  }

  /** The sample line `:alice!alice@x PRIVMSG #somechannel :hello world` decodes as expected. */
  lemma ParseExample()
    ensures ParseIrcMessage(PrivmsgLine("alice", "alice@x", "somechannel", "hello world"))
      == Some(ChatEvent("alice", "somechannel", "hello world"))
  {
    ParseRoundTrip("alice", "alice@x", "somechannel", "hello world");
  }

  /** What the listen loop does with one inbound line. */
  datatype Action = Pong | Process(event: ChatEvent) | Drop

  /** The keepalive acknowledgement. */
  const PongReply: string := "PONG :tmi.twitch.tv"

  /**
   The body of the listen loop: a line that mentions `PING` anywhere is
   answered with one `PONG` and nothing else; any other line is parsed and
   processed only when user, channel and text are all non-empty.
   */
  function Dispatch(line: string): (a: Action)
    ensures a.Pong? <==> Contains(line, "PING")
    ensures a.Process? ==> |a.event.user| > 0 && |a.event.channel| > 0 && |a.event.text| > 0
  {
    if Contains(line, "PING") then Pong
    else
      match ParseIrcMessage(line)
      case Some(ev) =>
        if |ev.user| > 0 && |ev.channel| > 0 && |ev.text| > 0 then Process(ev) else Drop
      case None => Drop
  }

  /** A line is processed exactly when it has no `PING` and decodes to three non-empty fields. */
  lemma {:induction false} DispatchProcessExactly(line: string, ev: ChatEvent)
    ensures Dispatch(line) == Process(ev) <==>
      && !Contains(line, "PING")
      && ParseIrcMessage(line) == Some(ev)
      && |ev.user| > 0 && |ev.channel| > 0 && |ev.text| > 0
  {
  }

  /** A well-formed chat post with non-empty fields and no `PING` in it is processed as sent. */
  lemma DispatchChatPost(nick: string, hostmask: string, channel: string, text: string)
    requires ' ' !in nick && '!' !in nick && ' ' !in hostmask && ' ' !in channel
    requires |nick| > 0 && |channel| > 0 && |text| > 0
    requires !Contains(PrivmsgLine(nick, hostmask, channel, text), "PING")
    ensures Dispatch(PrivmsgLine(nick, hostmask, channel, text)) == Process(ChatEvent(nick, channel, text))
  {
    ParseRoundTrip(nick, hostmask, channel, text);
  }

  /**
   Because the keepalive test looks for `PING` anywhere in the line, a chat
   post whose text mentions it decodes fine yet is answered with a `PONG` and
   never processed.
   */
  lemma {:induction false} DispatchChatMentioningPing(nick: string, hostmask: string, channel: string, text: string)
    requires ' ' !in nick && '!' !in nick && ' ' !in hostmask && ' ' !in channel
    requires Contains(text, "PING")
    ensures ParseIrcMessage(PrivmsgLine(nick, hostmask, channel, text)) == Some(ChatEvent(nick, channel, text))
    ensures Dispatch(PrivmsgLine(nick, hostmask, channel, text)) == Pong
  {
    ParseRoundTrip(nick, hostmask, channel, text);
    var line := PrivmsgLine(nick, hostmask, channel, text);
    ContainsInSuffix(line[..|line| - |text|], text, "PING");
    assert line == line[..|line| - |text|] + text;
  }

  /** A substring of the tail is a substring of the whole. */
  lemma {:induction false} ContainsInSuffix(head: string, tail: string, sub: string)
    requires Contains(tail, sub)
    ensures Contains(head + tail, sub)
  {
    var i :| OccursAt(tail, sub, i);
    var s := head + tail;
    assert s[|head| + i..|head| + i + |sub|] == tail[i..i + |sub|];
    assert OccursAt(s, sub, |head| + i);
  }

  // Handshake

  const PassLine: string := "PASS oauth:justinfan12345"
  const NickLine: string := "NICK justinfan12345"

  function JoinLine(channel: string): string
  {
    "JOIN #" + channel
  }

  /** One `JOIN` per channel, in list order. */
  function JoinLines(channels: seq<string>): seq<string>
  {
    if |channels| == 0 then []
    else JoinLines(channels[..|channels| - 1]) + [JoinLine(channels[|channels| - 1])]
  }

  /**
   Everything the client writes before it starts listening: `PASS`, then
   `NICK`, then `JOIN #<channel>` for each channel in list order.
   */
  function HandshakeLines(channels: seq<string>): (lines: seq<string>)
    ensures |lines| == |channels| + 2
    ensures lines[0] == PassLine && lines[1] == NickLine
    ensures forall i :: 0 <= i < |channels| ==> lines[i + 2] == JoinLine(channels[i])
  {
    JoinLinesLayout(channels);
    [PassLine, NickLine] + JoinLines(channels)
  }

  lemma {:induction false} JoinLinesLayout(channels: seq<string>)
    ensures |JoinLines(channels)| == |channels|
    ensures forall i :: 0 <= i < |channels| ==> JoinLines(channels)[i] == JoinLine(channels[i])
  {
    if |channels| > 0 {
      var init := channels[..|channels| - 1];
      JoinLinesLayout(init);
      assert forall i :: 0 <= i < |init| ==> init[i] == channels[i];
    }
  }

  // Channel lists

  /** `[ch.lower() for ch in channels]`, as the reader's constructor stores them. */
  function LowerAll(channels: seq<string>): (r: seq<string>)
    ensures |r| == |channels|
    ensures forall i :: 0 <= i < |channels| ==> r[i] == Lower(channels[i])
  {
    seq(|channels|, i requires 0 <= i < |channels| => Lower(channels[i]))
  }

  /**
   `[ch.strip() for ch in parts if ch.strip()]`: at most one entry per part,
   each non-empty and free of whitespace at either end.
   */
  function StripNonEmpty(parts: seq<string>): (r: seq<string>)
    ensures |r| <= |parts|
    ensures forall i :: 0 <= i < |r| ==> |r[i]| > 0 && Stripped(r[i])
  {
    if |parts| == 0 then []
    else
      var ch := Strip(parts[0]);
      var rest := StripNonEmpty(parts[1..]);
      if |ch| > 0 then StripResult(parts[0]); ConsStripped(ch, rest); [ch] + rest
      else rest
  }

  lemma {:induction false} ConsStripped(ch: string, rest: seq<string>)
    requires |ch| > 0 && Stripped(ch)
    requires forall i :: 0 <= i < |rest| ==> |rest[i]| > 0 && Stripped(rest[i])
    ensures forall i :: 0 <= i < |rest| + 1 ==> |([ch] + rest)[i]| > 0 && Stripped(([ch] + rest)[i])
  {
    forall i | 0 < i < |rest| + 1 ensures ([ch] + rest)[i] == rest[i - 1] {
    }
  }

  /** A single part gives its stripped text, unless that is empty. */
  lemma {:induction false} StripNonEmptyOne(p: string)
    ensures StripNonEmpty([p]) == if |Strip(p)| > 0 then [Strip(p)] else []
  {
    assert [p][1..] == [];
  }

  /**
   The parts are read one after another: the entries of `a + b` are those of
   `a` followed by those of `b`. With `StripNonEmptyOne` this pins every entry:
   the stripped text of every part that is not blank, in the parts' order.
   */
  lemma {:induction false} StripNonEmptyAppend(a: seq<string>, b: seq<string>)
    ensures StripNonEmpty(a + b) == StripNonEmpty(a) + StripNonEmpty(b)
  {
    if |a| == 0 {
      assert a + b == b;
    } else {
      StripNonEmptyAppend(a[1..], b);
      StripNonEmptyAppendStep(a, b);
    }
  }

  /** One step of `StripNonEmptyAppend`: the first part of `a` leads both sides. */
  lemma {:induction false} StripNonEmptyAppendStep(a: seq<string>, b: seq<string>)
    requires |a| > 0
    requires StripNonEmpty(a[1..] + b) == StripNonEmpty(a[1..]) + StripNonEmpty(b)
    ensures StripNonEmpty(a + b) == StripNonEmpty(a) + StripNonEmpty(b)
  {
    var first := if |Strip(a[0])| > 0 then [Strip(a[0])] else [];
    TailOfConcat(a, b);
    StripNonEmptyCons(a + b);
    StripNonEmptyCons(a);
    PrependAppend(StripNonEmpty(a + b), StripNonEmpty(a), first,
                  StripNonEmpty(a[1..] + b), StripNonEmpty(a[1..]), StripNonEmpty(b));
  }

  lemma {:induction false} PrependAppend<T>(whole: seq<T>, prefix: seq<T>, first: seq<T>,
                                            tailWhole: seq<T>, tailPrefix: seq<T>, rest: seq<T>)
    requires whole == first + tailWhole && prefix == first + tailPrefix && tailWhole == tailPrefix + rest
    ensures whole == prefix + rest
  {
    assert first + (tailPrefix + rest) == (first + tailPrefix) + rest;
  }

  lemma {:induction false} TailOfConcat<T>(a: seq<T>, b: seq<T>)
    requires |a| > 0
    ensures (a + b)[0] == a[0] && (a + b)[1..] == a[1..] + b
  {
  }

  lemma {:induction false} StripNonEmptyCons(parts: seq<string>)
    requires |parts| > 0
    ensures StripNonEmpty(parts) ==
      (if |Strip(parts[0])| > 0 then [Strip(parts[0])] else []) + StripNonEmpty(parts[1..])
  {
  }

  /**
   The channel list read from a comma-separated setting: at most one channel
   per comma-separated field, each non-empty, stripped and comma-free.
   */
  function ParseChannelList(setting: string): (r: seq<string>)
    ensures |r| <= CountChar(setting, ',') + 1
    ensures forall i :: 0 <= i < |r| ==> CleanChannel(r[i])
  {
    SplitAllPieces(setting, ',');
    StripNonEmptyWellFormed(SplitAll(setting, ','));
    StripNonEmpty(SplitAll(setting, ','))
  }

  /**
   A setting is read field by field: a first field `a` before the first comma
   gives its stripped text, unless that is blank, then the rest of the setting
   is read the same way.
   */
  lemma {:induction false} ParseChannelListField(a: string, b: string)
    requires ',' !in a
    ensures ParseChannelList(a + "," + b) == (if |Strip(a)| > 0 then [Strip(a)] else []) + ParseChannelList(b)
  {
    SplitAllFirst(a, ',', b);
    StripNonEmptyAppend([a], SplitAll(b, ','));
    StripNonEmptyOne(a);
  }

  /** The last field, with no comma left, gives its stripped text unless it is blank. */
  lemma {:induction false} ParseChannelListLast(a: string)
    requires ',' !in a
    ensures ParseChannelList(a) == if |Strip(a)| > 0 then [Strip(a)] else []
  {
    SplitAllNone(a, ',');
    StripNonEmptyOne(a);
  }

  /** What a usable channel name looks like: non-empty, stripped and comma-free. */
  predicate CleanChannel(ch: string)
  {
    |ch| > 0 && Stripped(ch) && ',' !in ch
  }

  /** Stripping a comma-free piece leaves it comma-free. */
  lemma {:induction false} StripKeepsCommaFree(part: string)
    requires ',' !in part
    ensures ',' !in Strip(part)
  {
    StripIsTrim(part);
    StripSlice(part);
    SliceKeepsAbsent(part, |part| - |TrimStart(part)|, TrimEnd(TrimStart(part)), ',');
  }

  /** A comma-free piece strips to a clean channel name unless it was all whitespace. */
  lemma {:induction false} StripCleans(part: string)
    requires ',' !in part
    ensures |Strip(part)| > 0 ==> CleanChannel(Strip(part))
  {
    StripKeepsCommaFree(part);
    StripResult(part);
  }

  predicate AllClean(chs: seq<string>)
  {
    forall i :: 0 <= i < |chs| ==> CleanChannel(chs[i])
  }

  lemma {:induction false} AllCleanCons(ch: string, rest: seq<string>)
    requires CleanChannel(ch) && AllClean(rest)
    ensures AllClean([ch] + rest)
  {
    forall i | 1 <= i < |rest| + 1 ensures CleanChannel(([ch] + rest)[i]) {
      assert ([ch] + rest)[i] == rest[i - 1];
    }
  }

  lemma {:induction false} StripNonEmptyWellFormed(parts: seq<string>)
    requires forall k :: 0 <= k < |parts| ==> ',' !in parts[k]
    ensures AllClean(StripNonEmpty(parts))
  {
    if |parts| > 0 {
      var ch := Strip(parts[0]);
      StripCleans(parts[0]);
      StripNonEmptyWellFormed(parts[1..]);
      var rest := StripNonEmpty(parts[1..]);
      if |ch| > 0 {
        assert StripNonEmpty(parts) == [ch] + rest;
        AllCleanCons(ch, rest);
      } else {
        assert StripNonEmpty(parts) == rest;
      }
    }
  }

  /** Setting written as a comma-joined list of clean names reads back as that list, in order. */
  lemma ChannelListRoundTrip(channels: seq<string>)
    requires |channels| >= 1
    requires forall i :: 0 <= i < |channels| ==> CleanChannel(channels[i])
    ensures ParseChannelList(Join(channels, ',')) == channels
  {
    SplitAllJoin(channels, ',');
    StripNonEmptyKeeps(channels);
  }

  lemma {:induction false} StripNonEmptyKeeps(channels: seq<string>)
    requires forall i :: 0 <= i < |channels| ==> |channels[i]| > 0 && Stripped(channels[i])
    ensures StripNonEmpty(channels) == channels
  {
    if |channels| > 0 {
      StripStripped(channels[0]);
      StripNonEmptyKeeps(channels[1..]);
      assert [channels[0]] + channels[1..] == channels;
    }
  }

  /**
   The channels the reader joins, from the setting `main` reads: every one is
   non-empty, comma-free, free of whitespace at either end and free of
   upper-case ASCII letters.
   */
  function ConfiguredChannels(setting: string): (r: seq<string>)
    ensures forall i :: 0 <= i < |r| ==> CleanChannel(r[i])
    ensures forall i, k :: 0 <= i < |r| && 0 <= k < |r[i]| ==> !('A' <= r[i][k] <= 'Z')
  {
    var parsed := ParseChannelList(setting);
    LowerAllKeepsClean(parsed);
    LowerAll(parsed)
  }

  /** Lower-casing a list works entry by entry. */
  lemma {:induction false} LowerAllAppend(a: seq<string>, b: seq<string>)
    ensures LowerAll(a + b) == LowerAll(a) + LowerAll(b)
  {
    assert forall i :: 0 <= i < |a| ==> (a + b)[i] == a[i];
    assert forall i :: |a| <= i < |a| + |b| ==> (a + b)[i] == b[i - |a|];
  }

  /**
   The joined channels, field by field: a first field `a` gives its stripped,
   lower-cased text unless it is blank, then the rest of the setting follows.
   */
  lemma {:induction false} ConfiguredChannelsField(a: string, b: string)
    requires ',' !in a
    ensures ConfiguredChannels(a + "," + b) ==
      (if |Strip(a)| > 0 then [Lower(Strip(a))] else []) + ConfiguredChannels(b)
  {
    var first := if |Strip(a)| > 0 then [Strip(a)] else [];
    ParseChannelListField(a, b);
    ConfiguredIsLowered(a + "," + b);
    ConfiguredIsLowered(b);
    LowerAllAppend(first, ParseChannelList(b));
    LowerAllOne(first);
  }

  /** The last field, with no comma left, gives its stripped, lower-cased text unless it is blank. */
  lemma {:induction false} ConfiguredChannelsLast(a: string)
    requires ',' !in a
    ensures ConfiguredChannels(a) == if |Strip(a)| > 0 then [Lower(Strip(a))] else []
  {
    ParseChannelListLast(a);
    ConfiguredIsLowered(a);
    LowerAllOne(if |Strip(a)| > 0 then [Strip(a)] else []);
  }

  lemma {:induction false} ConfiguredIsLowered(setting: string)
    ensures ConfiguredChannels(setting) == LowerAll(ParseChannelList(setting))
  {
  }

  lemma {:induction false} LowerAllOne(chs: seq<string>)
    requires |chs| <= 1
    ensures LowerAll(chs) == if |chs| == 1 then [Lower(chs[0])] else []
  {
  }

  /** Lower-casing a list of clean channel names keeps every one clean. */
  lemma {:induction false} LowerAllKeepsClean(chs: seq<string>)
    requires AllClean(chs)
    ensures AllClean(LowerAll(chs))
    ensures forall i, k :: 0 <= i < |chs| && 0 <= k < |LowerAll(chs)[i]| ==> !('A' <= LowerAll(chs)[i][k] <= 'Z')
  {
    forall i | 0 <= i < |chs|
      ensures CleanChannel(LowerAll(chs)[i])
      ensures forall k :: 0 <= k < |LowerAll(chs)[i]| ==> !('A' <= LowerAll(chs)[i][k] <= 'Z')
    {
      LowerKeepsClean(chs[i]);
    }
  }

  /** Lower-casing a clean channel name keeps it clean. */
  lemma {:induction false} LowerKeepsClean(ch: string)
    requires CleanChannel(ch)
    ensures CleanChannel(Lower(ch))
    ensures forall k :: 0 <= k < |Lower(ch)| ==> !('A' <= Lower(ch)[k] <= 'Z')
  {
    var r := Lower(ch);
    LowerResult(ch);
    forall k | 0 <= k < |r| ensures r[k] != ',' {
      assert ch[k] != ',';
    }
    assert !IsSpace(r[0]) && !IsSpace(r[|r| - 1]);
  }

}
