/**
 `AnonymousTwitchReader`: the channels it joins, the lines it writes to the
 server, its count of processed chat messages, and the classifier it feeds.
 The websocket is replaced by the run of lines the server delivers and the
 list of lines written back (`sent`).
 */
module Reader {
  import opened Wrappers
  import opened Strings
  import opened Irc
  import Sentiment

  /**
   The lines written back while listening to `lines`: one `PONG` per line that
   mentions `PING`, so never more replies than lines, and nothing but `PONG`s.
   */
  function Replies(lines: seq<string>): (replies: seq<string>)
    ensures |replies| <= |lines|
    ensures forall i :: 0 <= i < |replies| ==> replies[i] == PongReply
  {
    if |lines| == 0 then []
    else Replies(lines[..|lines| - 1]) + (if Contains(lines[|lines| - 1], "PING") then [PongReply] else [])
  }

  /** How many of `lines` the listen loop hands to the classifier; at most one per line. */
  function ProcessedCount(lines: seq<string>): (count: nat)
    ensures count <= |lines|
  {
    if |lines| == 0 then 0
    else ProcessedCount(lines[..|lines| - 1]) + (if Dispatch(lines[|lines| - 1]).Process? then 1 else 0)
  }

  /**
   What one inbound line does to the classifier's state: nothing unless the
   line is processed, and the tables only ever grow, by at most one message row.
   */
  function Step(st: Sentiment.ClassifierState, classify: string -> Option<string>, line: string,
                faults: Sentiment.Faults): (st': Sentiment.ClassifierState)
    ensures !Dispatch(line).Process? ==> st' == st
    ensures Sentiment.AppendOnly(st.db, st'.db)
    ensures |st'.db.messages| <= |st.db.messages| + (if Dispatch(line).Process? then 1 else 0)
  {
    match Dispatch(line)
    case Process(ev) =>
      Sentiment.ProcessSpec(st, ev.user, ev.channel, ev.text, classify(ev.text), faults)
    case _ => st
  }

  /**
   The classifier's state after the listen loop has handled `lines`;
   `faults[i]` is what raises for line `i`. No row is ever lost, and at most
   one message row is added per processed line.
   */
  function ProcessAll(st: Sentiment.ClassifierState, classify: string -> Option<string>, lines: seq<string>,
                      faults: seq<Sentiment.Faults>): (st': Sentiment.ClassifierState)
    requires |faults| == |lines|
    ensures Sentiment.AppendOnly(st.db, st'.db)
    ensures |st'.db.messages| <= |st.db.messages| + ProcessedCount(lines)
  {
    if |lines| == 0 then st
    else Step(ProcessAll(st, classify, lines[..|lines| - 1], faults[..|lines| - 1]), classify,
              lines[|lines| - 1], faults[|lines| - 1])
  }

  /**
   A processed line hands its own decoded user, channel and text to
   `process_message`, in that order: unless the message insert raises, the
   message table gains exactly the row `(next id, user, channel, text)`, and on
   full success both deques gain the entry and score for that post.
   */
  lemma {:induction false} StepStoresEvent(st: Sentiment.ClassifierState, classify: string -> Option<string>,
                                           line: string, faults: Sentiment.Faults)
    requires Dispatch(line).Process?
    ensures var ev := Dispatch(line).event;
      var st' := Step(st, classify, line, faults);
      && (!faults.messageWriteFails ==>
            st'.db.messages == st.db.messages + [Sentiment.MessageRow(st.db.nextId, ev.user, ev.channel, ev.text)])
      && (Sentiment.Succeeds(classify(ev.text), faults) ==>
            var score := Sentiment.Score(classify(ev.text).value);
            && st'.recentMessages == Sentiment.Append(st.recentMessages,
                 Sentiment.CacheEntry(ev.user, ev.channel, ev.text, score), Sentiment.MaxLen)
            && st'.sentimentCache == Sentiment.Append(st.sentimentCache, score, Sentiment.MaxLen)
            && st'.db.sentiments == st.db.sentiments + [Sentiment.SentimentRow(st.db.nextId, score)])
  {
    var ev := Dispatch(line).event;
    Sentiment.ProcessAllOrNothing(st, ev.user, ev.channel, ev.text, classify(ev.text), faults);
  }

  /**
   End to end: a chat post `:nick!host PRIVMSG #channel :text` that the loop
   processes is stored as the row `(nick, channel, text)` and, on full success,
   becomes the newest entry of the message deque.
   */
  lemma {:induction false} ChatPostStored(st: Sentiment.ClassifierState, classify: string -> Option<string>,
                                          nick: string, hostmask: string, channel: string, text: string,
                                          faults: Sentiment.Faults)
    requires ' ' !in nick && '!' !in nick && ' ' !in hostmask && ' ' !in channel
    requires |nick| > 0 && |channel| > 0 && |text| > 0
    requires !Contains(PrivmsgLine(nick, hostmask, channel, text), "PING")
    ensures var st' := Step(st, classify, PrivmsgLine(nick, hostmask, channel, text), faults);
      && (!faults.messageWriteFails ==>
            st'.db.messages == st.db.messages + [Sentiment.MessageRow(st.db.nextId, nick, channel, text)])
      && (Sentiment.Succeeds(classify(text), faults) ==>
            && |st'.recentMessages| > 0
            && st'.recentMessages[|st'.recentMessages| - 1]
               == Sentiment.CacheEntry(nick, channel, text, Sentiment.Score(classify(text).value)))
  {
    var line := PrivmsgLine(nick, hostmask, channel, text);
    DispatchChatPost(nick, hostmask, channel, text);
    StepStoresEvent(st, classify, line, faults);
    if Sentiment.Succeeds(classify(text), faults) {
      Sentiment.AppendEffect(st.recentMessages,
        Sentiment.CacheEntry(nick, channel, text, Sentiment.Score(classify(text).value)), Sentiment.MaxLen);
    }
  }

  /** The score a line adds to the deque: one when it is processed without error, none otherwise. */
  function LineScores(classify: string -> Option<string>, line: string, faults: Sentiment.Faults): seq<real>
  {
    match Dispatch(line)
    case Process(ev) =>
      if Sentiment.Succeeds(classify(ev.text), faults) then [Sentiment.Score(classify(ev.text).value)] else []
    case _ => []
  }

  /** Step keeps the classifier's invariant. */
  lemma {:induction false} StepKeepsInv(st: Sentiment.ClassifierState, classify: string -> Option<string>, line: string,
                                        faults: Sentiment.Faults)
    requires Sentiment.Inv(st)
    ensures Sentiment.Inv(Step(st, classify, line, faults))
  {
    match Dispatch(line)
    case Process(ev) =>
      Sentiment.ProcessKeepsInv(st, ev.user, ev.channel, ev.text, classify(ev.text), faults);
    case Pong =>
    case Drop =>
  }

  /** However many lines arrive and whatever raises, the classifier's invariant holds throughout. */
  lemma {:induction false} ProcessAllKeepsInv(st: Sentiment.ClassifierState, classify: string -> Option<string>,
                                              lines: seq<string>, faults: seq<Sentiment.Faults>)
    requires Sentiment.Inv(st) && |faults| == |lines|
    ensures Sentiment.Inv(ProcessAll(st, classify, lines, faults))
  {
    if |lines| > 0 {
      var n := |lines| - 1;
      var before := ProcessAll(st, classify, lines[..n], faults[..n]);
      ProcessAllKeepsInv(st, classify, lines[..n], faults[..n]);
      StepKeepsInv(before, classify, lines[n], faults[n]);
      ProcessAllUnfold(st, classify, lines, faults);
    }
  }

  /** The scores of the lines whose processing ran to its end, in arrival order. */
  function SuccessfulScores(classify: string -> Option<string>, lines: seq<string>, faults: seq<Sentiment.Faults>): seq<real>
    requires |faults| == |lines|
  {
    if |lines| == 0 then []
    else
      var n := |lines| - 1;
      SuccessfulScores(classify, lines[..n], faults[..n]) + LineScores(classify, lines[n], faults[n])
  }

  /** Every reply is a `PONG`, and no line is both answered and processed. */
  lemma {:induction false} RepliesArePongs(lines: seq<string>)
    ensures forall i :: 0 <= i < |Replies(lines)| ==> Replies(lines)[i] == PongReply
    ensures |Replies(lines)| + ProcessedCount(lines) <= |lines|
  {
    if |lines| > 0 {
      var init := lines[..|lines| - 1];
      RepliesArePongs(init);
      var last := lines[|lines| - 1];
      assert Dispatch(last).Pong? <==> Contains(last, "PING");
    }
  }

  /** A single line is answered with one `PONG` exactly when it mentions `PING`. */
  lemma {:induction false} RepliesOne(line: string)
    ensures Replies([line]) == if Contains(line, "PING") then [PongReply] else []
  {
    assert [line][..0] == [];
  }

  /**
   Lines are answered one after another: the replies to `a + b` are those to
   `a` followed by those to `b`. With `RepliesOne`, one `PONG` per line that
   mentions `PING`, in the lines' order, and none for any other line.
   */
  lemma {:induction false} RepliesAppend(a: seq<string>, b: seq<string>)
    ensures Replies(a + b) == Replies(a) + Replies(b)
    decreases |b|
  {
    if |b| == 0 {
      assert a + b == a;
    } else {
      var init := b[..|b| - 1];
      var tail := if Contains(b[|b| - 1], "PING") then [PongReply] else [];
      assert (a + b)[..|a + b| - 1] == a + init;
      assert (a + b)[|a + b| - 1] == b[|b| - 1];
      assert Replies(a + b) == Replies(a + init) + tail;
      RepliesAppend(a, init);
      assert Replies(b) == Replies(init) + tail;
      assert Replies(a) + (Replies(init) + tail) == (Replies(a) + Replies(init)) + tail;
    }
  }

  /**
   After the listen loop the score deque is the newest 1000 of the scores it
   held before followed by the scores of every line processed without error.
   */
  lemma {:induction false} ListenKeepsNewestScores(st: Sentiment.ClassifierState, classify: string -> Option<string>,
                                                   lines: seq<string>, faults: seq<Sentiment.Faults>)
    requires |st.sentimentCache| <= Sentiment.MaxLen && |faults| == |lines|
    ensures ProcessAll(st, classify, lines, faults).sentimentCache
      == Sentiment.Last(st.sentimentCache + SuccessfulScores(classify, lines, faults), Sentiment.MaxLen)
  {
    ListenAppendsScores(st, classify, lines, faults);
    Sentiment.AppendAllIsLast(st.sentimentCache, SuccessfulScores(classify, lines, faults), Sentiment.MaxLen);
  }

  lemma {:induction false} ListenAppendsScores(st: Sentiment.ClassifierState, classify: string -> Option<string>,
                                               lines: seq<string>, faults: seq<Sentiment.Faults>)
    requires |faults| == |lines|
    ensures ProcessAll(st, classify, lines, faults).sentimentCache
      == Sentiment.AppendAll(st.sentimentCache, SuccessfulScores(classify, lines, faults), Sentiment.MaxLen)
  {
    if |lines| > 0 {
      var n := |lines| - 1;
      var before := ProcessAll(st, classify, lines[..n], faults[..n]);
      var prev := SuccessfulScores(classify, lines[..n], faults[..n]);
      var added := LineScores(classify, lines[n], faults[n]);
      ProcessAllUnfold(st, classify, lines, faults);
      ListenAppendsScores(st, classify, lines[..n], faults[..n]);
      StepAppendsScores(before, classify, lines[n], faults[n]);
      AppendAllConcat(st.sentimentCache, prev, added);
    }
  }

  lemma {:induction false} ProcessAllUnfold(st: Sentiment.ClassifierState, classify: string -> Option<string>,
                                            lines: seq<string>, faults: seq<Sentiment.Faults>)
    requires |faults| == |lines| > 0
    ensures var n := |lines| - 1;
      && ProcessAll(st, classify, lines, faults)
           == Step(ProcessAll(st, classify, lines[..n], faults[..n]), classify, lines[n], faults[n])
      && SuccessfulScores(classify, lines, faults)
           == SuccessfulScores(classify, lines[..n], faults[..n]) + LineScores(classify, lines[n], faults[n])
  {
  }

  /** One line appends its score, if any, to the deque. */
  lemma {:induction false} StepAppendsScores(st: Sentiment.ClassifierState, classify: string -> Option<string>,
                                             line: string, faults: Sentiment.Faults)
    ensures Step(st, classify, line, faults).sentimentCache
      == Sentiment.AppendAll(st.sentimentCache, LineScores(classify, line, faults), Sentiment.MaxLen)
  {
    match Dispatch(line)
    case Process(ev) =>
      Sentiment.ProcessAllOrNothing(st, ev.user, ev.channel, ev.text, classify(ev.text), faults);
      var added := LineScores(classify, line, faults);
      if |added| > 0 {
        assert added[..0] == [];
      }
    case Pong =>
    case Drop =>
  }

  lemma {:induction false} AppendAllConcat(q: seq<real>, xs: seq<real>, ys: seq<real>)
    requires |ys| <= 1
    ensures Sentiment.AppendAll(q, xs + ys, Sentiment.MaxLen)
      == Sentiment.AppendAll(Sentiment.AppendAll(q, xs, Sentiment.MaxLen), ys, Sentiment.MaxLen)
  {
    if |ys| == 1 {
      assert (xs + ys)[..|xs|] == xs;
      assert ys[..0] == [];
    } else {
      assert xs + ys == xs;
    }
  }

  /** Handling one more line extends the replies, the count and the classifier state by that line's effect. */
  lemma {:induction false} ListenStep(st: Sentiment.ClassifierState, classify: string -> Option<string>,
                                      lines: seq<string>, faults: seq<Sentiment.Faults>, i: nat)
    requires |faults| == |lines| && i < |lines|
    ensures Replies(lines[..i + 1]) == Replies(lines[..i]) + (if Contains(lines[i], "PING") then [PongReply] else [])
    ensures ProcessedCount(lines[..i + 1]) == ProcessedCount(lines[..i]) + (if Dispatch(lines[i]).Process? then 1 else 0)
    ensures ProcessAll(st, classify, lines[..i + 1], faults[..i + 1])
      == Step(ProcessAll(st, classify, lines[..i], faults[..i]), classify, lines[i], faults[i])
  {
    assert lines[..i + 1][..i] == lines[..i];
    assert faults[..i + 1][..i] == faults[..i];
  }

  class TwitchReader {
    /** The channels to join, lower-cased. */
    const channels: seq<string>
    const analyzer: Sentiment.SentimentClassifier
    /** `message_count`: chat messages handed to the classifier so far. */
    var messageCount: nat
    /** Every line written to the server so far, oldest first. */
    var sent: seq<string>

    constructor(channels: seq<string>, analyzer: Sentiment.SentimentClassifier)
      ensures this.channels == LowerAll(channels) && this.analyzer == analyzer
      ensures messageCount == 0 && sent == []
    {
      this.channels := LowerAll(channels);
      this.analyzer := analyzer;
      messageCount := 0;
      sent := [];
    }

    /** The anonymous login, then one `JOIN` per channel in list order. */
    method Handshake()
      modifies this
      ensures sent == old(sent) + HandshakeLines(channels)
      ensures messageCount == old(messageCount)
    {
      sent := sent + [PassLine];
      sent := sent + [NickLine];
      var i := 0;
      while i < |channels|
        invariant 0 <= i <= |channels|
        invariant sent == old(sent) + [PassLine, NickLine] + JoinLines(channels[..i])
        invariant messageCount == old(messageCount)
      {
        assert channels[..i + 1][..i] == channels[..i];
        sent := sent + [JoinLine(channels[i])];
        i := i + 1;
      }
      assert channels[..i] == channels;
    }

    /**
     One pass of the listen loop: a line mentioning `PING` gets one `PONG` and
     nothing else; a decoded post with non-empty fields is counted and processed;
     anything else is dropped.
     */
    method HandleLine(line: string, faults: Sentiment.Faults)
      requires analyzer.Valid()
      modifies this, analyzer
      ensures analyzer.Valid()
      ensures sent == old(sent) + (if Contains(line, "PING") then [PongReply] else [])
      ensures messageCount == old(messageCount) + (if Dispatch(line).Process? then 1 else 0)
      ensures analyzer.View() == Step(old(analyzer.View()), analyzer.classify, line, faults)
    {
      match Dispatch(line)
      case Pong =>
        sent := sent + [PongReply];
      case Process(ev) =>
        messageCount := messageCount + 1;
        analyzer.ProcessMessage(ev.user, ev.channel, ev.text, faults);
      case Drop =>
    }

    /**
     One turn of the listen loop: handling line `i` extends the replies, the
     count and the classifier state from `lines[..i]` to `lines[..i + 1]`.
     */
    method ListenTurn(lines: seq<string>, faults: seq<Sentiment.Faults>, i: nat,
                      ghost start: Sentiment.ClassifierState, ghost sent0: seq<string>, ghost count0: nat)
      requires analyzer.Valid() && |faults| == |lines| && i < |lines|
      requires sent == sent0 + Replies(lines[..i])
      requires messageCount == count0 + ProcessedCount(lines[..i])
      requires analyzer.View() == ProcessAll(start, analyzer.classify, lines[..i], faults[..i])
      modifies this, analyzer
      ensures analyzer.Valid()
      ensures sent == sent0 + Replies(lines[..i + 1])
      ensures messageCount == count0 + ProcessedCount(lines[..i + 1])
      ensures analyzer.View() == ProcessAll(start, analyzer.classify, lines[..i + 1], faults[..i + 1])
    {
      ListenStep(start, analyzer.classify, lines, faults, i);
      HandleLine(lines[i], faults[i]);
    }

    /** The listen loop over the lines the server delivers, in order. */
    method Listen(lines: seq<string>, faults: seq<Sentiment.Faults>)
      requires analyzer.Valid() && |faults| == |lines|
      modifies this, analyzer
      ensures analyzer.Valid()
      ensures sent == old(sent) + Replies(lines)
      ensures messageCount == old(messageCount) + ProcessedCount(lines)
      ensures analyzer.View() == ProcessAll(old(analyzer.View()), analyzer.classify, lines, faults)
    {
      ghost var start := analyzer.View();
      ghost var sent0 := sent;
      ghost var count0 := messageCount;
      var i := 0;
      while i < |lines|
        invariant 0 <= i <= |lines|
        invariant analyzer.Valid()
        invariant sent == sent0 + Replies(lines[..i])
        invariant messageCount == count0 + ProcessedCount(lines[..i])
        invariant analyzer.View() == ProcessAll(start, analyzer.classify, lines[..i], faults[..i])
      {
        ListenTurn(lines, faults, i, start, sent0, count0);
        i := i + 1;
      }
      assert lines[..i] == lines;
      assert faults[..i] == faults;
    }

    /** `connect_and_listen`: the handshake, then the listen loop. */
    method ConnectAndListen(lines: seq<string>, faults: seq<Sentiment.Faults>)
      requires analyzer.Valid() && |faults| == |lines|
      modifies this, analyzer
      ensures analyzer.Valid()
      ensures sent == old(sent) + HandshakeLines(channels) + Replies(lines)
      ensures messageCount == old(messageCount) + ProcessedCount(lines)
      ensures analyzer.View() == ProcessAll(old(analyzer.View()), analyzer.classify, lines, faults)
    {
      Handshake();
      Listen(lines, faults);
    }
  }
}
