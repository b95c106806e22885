/**
 The classification-and-caching side of the chat reader: the bounded deques
 `recent_messages` and `sentiment_cache`, the two SQLite tables the classifier
 appends to, the mapping from predicted label to score, and the all-or-nothing
 `process_message` pipeline that ties them together.

 The database is an append-only log held as a value (`Database`); each write
 takes a flag saying whether it raises. The loaded vectorizer and classifier
 are one function from text to an optional label, `None` when prediction raises.
 */
module Sentiment {
  import opened Wrappers

  /** Capacity of both in-memory deques (`deque(maxlen=1000)`). */
  const MaxLen: nat := 1000

  // ----- Bounded FIFO -----

  /** The last `k` elements of `s`, or all of `s` when it is shorter. */
  function Last<T>(s: seq<T>, k: nat): (r: seq<T>)
    ensures |r| == if |s| < k then |s| else k
  {
    if |s| < k then s else s[|s| - k..]
  }

  /** `deque(maxlen=cap).append(x)`: add at the right end, dropping the leftmost element when full. */
  function Append<T>(q: seq<T>, x: T, cap: nat): (r: seq<T>)
    ensures |r| <= cap
  {
    if |q| < cap then q + [x] else (q + [x])[|q| + 1 - cap..]
  }

  /** A deque is always the newest `cap` items ever appended: one append keeps that so. */
  lemma {:induction false} AppendIsLast<T>(q: seq<T>, x: T, cap: nat)
    ensures Append(q, x, cap) == Last(q + [x], cap)
  {
  }

  /**
   After an append the new item is the newest; below capacity nothing is lost,
   and at capacity exactly the oldest item goes while the rest keep their order.
   */
  lemma {:induction false} AppendEffect<T>(q: seq<T>, x: T, cap: nat)
    ensures cap > 0 ==> |Append(q, x, cap)| > 0 && Append(q, x, cap)[|Append(q, x, cap)| - 1] == x
    ensures |q| < cap ==> Append(q, x, cap) == q + [x]
    ensures 0 < |q| == cap ==> Append(q, x, cap) == q[1..] + [x] && |Append(q, x, cap)| == cap
  {
    if 0 < |q| == cap {
      assert (q + [x])[1..] == q[1..] + [x];
    }
  }

  /** Appending each of `xs` in turn. */
  function AppendAll<T>(q: seq<T>, xs: seq<T>, cap: nat): seq<T>
  {
    if |xs| == 0 then q else Append(AppendAll(q, xs[..|xs| - 1], cap), xs[|xs| - 1], cap)
  }

  /** Dropping old items early does not change what the newest `k` are. */
  lemma {:induction false} LastOfLast<T>(s: seq<T>, t: seq<T>, k: nat)
    ensures Last(Last(s, k) + t, k) == Last(s + t, k)
  {
    var u := Last(s, k) + t;
    var v := s + t;
    assert u == v[|v| - |u|..];
    var r := Last(u, k);
    assert |r| == |Last(v, k)|;
    assert r == v[|v| - |r|..];
  }

  /** However many items go through it, a deque holds the newest `cap` of all of them, in order. */
  lemma {:induction false} AppendAllIsLast<T>(q: seq<T>, xs: seq<T>, cap: nat)
    requires |q| <= cap
    ensures AppendAll(q, xs, cap) == Last(q + xs, cap)
  {
    if |xs| == 0 {
      assert q + xs == q;
    } else {
      var init := xs[..|xs| - 1];
      AppendAllIsLast(q, init, cap);
      AppendAllSnoc(q, init, xs[|xs| - 1], cap);
      assert init + [xs[|xs| - 1]] == xs;
    }
  }

  lemma {:induction false} AppendAllSnoc<T>(q: seq<T>, init: seq<T>, x: T, cap: nat)
    requires AppendAll(q, init, cap) == Last(q + init, cap)
    ensures AppendAll(q, init + [x], cap) == Last(q + (init + [x]), cap)
  {
    assert (init + [x])[..|init|] == init;
    calc {
      AppendAll(q, init + [x], cap);
      Append(Last(q + init, cap), x, cap);
      { AppendIsLast(Last(q + init, cap), x, cap); }
      Last(Last(q + init, cap) + [x], cap);
      { LastOfLast(q + init, [x], cap); }
      Last(q + init + [x], cap);
      { assert q + init + [x] == q + (init + [x]); }
      Last(q + (init + [x]), cap);
    }
  }

  // ----- The two SQLite tables -----

  /** A row of `twitch_messages` (the timestamp column is not modelled). */
  datatype MessageRow = MessageRow(id: nat, user: string, channel: string, text: string)

  /** A row of `message_sentiments`: the message it scores, and the score. */
  datatype SentimentRow = SentimentRow(messageId: nat, score: real)

  /** Both tables, and the next `AUTOINCREMENT` id of `twitch_messages`. */
  datatype Database = Database(messages: seq<MessageRow>, sentiments: seq<SentimentRow>, nextId: nat)

  function MessageIds(rows: seq<MessageRow>): (ids: seq<nat>)
    ensures |ids| == |rows|
    ensures forall i :: 0 <= i < |rows| ==> ids[i] == rows[i].id
  {
    seq(|rows|, i requires 0 <= i < |rows| => rows[i].id)
  }

  /**
   Ids are positive, increasing and below the next id; every sentiment row
   refers to a stored message (the foreign key).
   */
  predicate DbValid(db: Database)
  {
    && 1 <= db.nextId
    && (forall i :: 0 <= i < |db.messages| ==> 1 <= db.messages[i].id < db.nextId)
    && (forall i, j :: 0 <= i < j < |db.messages| ==> db.messages[i].id < db.messages[j].id)
    && (forall k :: 0 <= k < |db.sentiments| ==> db.sentiments[k].messageId in MessageIds(db.messages))
  }

  /** Both tables of `db'` start with every row of `db`, in the same order. */
  predicate AppendOnly(db: Database, db': Database)
  {
    db.messages <= db'.messages && db.sentiments <= db'.sentiments
  }

  /**
   `INSERT INTO twitch_messages`: every existing row stays, one row with the
   given fields is added under the next id, and the next id moves on.
   */
  function InsertMessage(db: Database, user: string, channel: string, text: string): (db': Database)
    ensures db.messages <= db'.messages && |db'.messages| == |db.messages| + 1
    ensures db'.messages[|db.messages|] == MessageRow(db.nextId, user, channel, text)
    ensures db'.sentiments == db.sentiments && db'.nextId > db.nextId
  {
    db.(messages := db.messages + [MessageRow(db.nextId, user, channel, text)], nextId := db.nextId + 1)
  }

  /**
   `INSERT INTO message_sentiments`: every existing row stays, and one row
   pairing the message id with its score is added; `twitch_messages` is untouched.
   */
  function InsertSentiment(db: Database, messageId: nat, score: real): (db': Database)
    ensures db.sentiments <= db'.sentiments && |db'.sentiments| == |db.sentiments| + 1
    ensures db'.sentiments[|db.sentiments|] == SentimentRow(messageId, score)
    ensures db'.messages == db.messages && db'.nextId == db.nextId
  {
    db.(sentiments := db.sentiments + [SentimentRow(messageId, score)])
  }

  /** Inserting a message keeps the tables well formed, and the new id was unused. */
  lemma {:induction false} InsertMessageValid(db: Database, user: string, channel: string, text: string)
    requires DbValid(db)
    ensures DbValid(InsertMessage(db, user, channel, text))
    ensures db.nextId in MessageIds(InsertMessage(db, user, channel, text).messages)
    ensures db.nextId !in MessageIds(db.messages)
  {
    var db' := InsertMessage(db, user, channel, text);
    var ids := MessageIds(db.messages);
    var ids' := MessageIds(db'.messages);
    assert ids' == ids + [db.nextId];
    assert ids'[|ids|] == db.nextId;
    forall k | 0 <= k < |db'.sentiments| ensures db'.sentiments[k].messageId in ids' {
      InPrefix(db.sentiments[k].messageId, ids, [db.nextId]);
    }
  }

  lemma {:induction false} InPrefix<T>(x: T, a: seq<T>, b: seq<T>)
    requires x in a
    ensures x in a + b
  {
    var i :| 0 <= i < |a| && a[i] == x;
    assert (a + b)[i] == x;
  }

  /** A sentiment row for a stored message keeps the tables well formed. */
  lemma {:induction false} InsertSentimentValid(db: Database, messageId: nat, score: real)
    requires DbValid(db) && messageId in MessageIds(db.messages)
    ensures DbValid(InsertSentiment(db, messageId, score))
  {
  }

  // ----- The classifier -----

  /** `analyze_sentiment`'s mapping from a predicted label to a score. */
  function Score(predicted: string): (score: real)
    ensures score == 1.0 || score == -1.0
  {
    if predicted == "pos" then 1.0 else -1.0
  }

  /** The word the classifier prints for a score. */
  function SentimentLabel(score: real): string
  {
    if score > 0.0 then "POSITIVE" else "NEGATIVE"
  }

  /** A score is +1.0 exactly for `pos`, and is reported as `POSITIVE` exactly then. */
  lemma {:induction false} ScoreOfLabel(predicted: string)
    ensures Score(predicted) == 1.0 <==> predicted == "pos"
    ensures Score(predicted) == -1.0 <==> predicted != "pos"
    ensures SentimentLabel(Score(predicted)) == (if predicted == "pos" then "POSITIVE" else "NEGATIVE")
  {
  }

  /** One element of `recent_messages` (the timestamp is not modelled). */
  datatype CacheEntry = CacheEntry(user: string, channel: string, text: string, sentiment: real)

  /** What the classifier object holds: the two deques and the database behind it. */
  datatype ClassifierState = ClassifierState(recentMessages: seq<CacheEntry>, sentimentCache: seq<real>, db: Database)

  /** Which of the two database writes raise during one `process_message`. */
  datatype Faults = Faults(messageWriteFails: bool, sentimentWriteFails: bool)

  /** The scores carried by a run of cache entries. */
  function Scores(entries: seq<CacheEntry>): (scores: seq<real>)
    ensures |scores| == |entries|
    ensures forall i :: 0 <= i < |entries| ==> scores[i] == entries[i].sentiment
  {
    seq(|entries|, i requires 0 <= i < |entries| => entries[i].sentiment)
  }

  /**
   The deques move in lockstep: equally long, within capacity, the score deque
   repeating the entries' scores, every score ±1; and the tables are well formed.
   */
  predicate Inv(st: ClassifierState)
  {
    && |st.recentMessages| <= MaxLen
    && st.sentimentCache == Scores(st.recentMessages)
    && (forall i :: 0 <= i < |st.sentimentCache| ==> st.sentimentCache[i] == 1.0 || st.sentimentCache[i] == -1.0)
    && DbValid(st.db)
  }

  /** `process_message` ran to its end without an exception. */
  predicate Succeeds(prediction: Option<string>, faults: Faults)
  {
    !faults.messageWriteFails && prediction.Some? && !faults.sentimentWriteFails
  }

  /**
   `process_message(user, channel, text)`: store the message, classify it,
   store the score under the message's id, then append to both deques. An
   exception at any step abandons the rest, keeping what was already written.
   */
  function ProcessSpec(st: ClassifierState, user: string, channel: string, text: string,
                       prediction: Option<string>, faults: Faults): (st': ClassifierState)
    ensures AppendOnly(st.db, st'.db)
    ensures |st'.db.messages| <= |st.db.messages| + 1 && |st'.db.sentiments| <= |st.db.sentiments| + 1
  {
    if faults.messageWriteFails then st
    else
      var id := st.db.nextId;
      var stored := InsertMessage(st.db, user, channel, text);
      match prediction
      case None => st.(db := stored)
      case Some(predicted) =>
        var score := Score(predicted);
        if faults.sentimentWriteFails then st.(db := stored)
        else
          ClassifierState(
            Append(st.recentMessages, CacheEntry(user, channel, text, score), MaxLen),
            Append(st.sentimentCache, score, MaxLen),
            InsertSentiment(stored, id, score))
  }

  /** The two deques stay in lockstep through an append of an entry and its score. */
  lemma {:induction false} AppendScores(entries: seq<CacheEntry>, e: CacheEntry)
    requires |entries| <= MaxLen
    ensures Append(Scores(entries), e.sentiment, MaxLen) == Scores(Append(entries, e, MaxLen))
  {
    var l := Append(Scores(entries), e.sentiment, MaxLen);
    var r := Scores(Append(entries, e, MaxLen));
    var drop := if |entries| < MaxLen then 0 else 1;
    forall i | 0 <= i < |r| ensures l[i] == r[i] {
      assert l[i] == (Scores(entries) + [e.sentiment])[i + drop];
      assert Append(entries, e, MaxLen)[i] == (entries + [e])[i + drop];
    }
  }

  lemma {:induction false} AppendKeepsUnitScores(c: seq<real>, score: real)
    requires forall i :: 0 <= i < |c| ==> c[i] == 1.0 || c[i] == -1.0
    requires score == 1.0 || score == -1.0
    ensures forall i :: 0 <= i < |Append(c, score, MaxLen)| ==> Append(c, score, MaxLen)[i] == 1.0 || Append(c, score, MaxLen)[i] == -1.0
  {
    var r := Append(c, score, MaxLen);
    var drop := |c| + 1 - |r|;
    forall i | 0 <= i < |r| ensures r[i] == 1.0 || r[i] == -1.0 {
      assert r[i] == (c + [score])[i + drop];
    }
  }

  /** `process_message` keeps the invariant, whatever raises. */
  lemma {:induction false} ProcessKeepsInv(st: ClassifierState, user: string, channel: string, text: string,
                                           prediction: Option<string>, faults: Faults)
    requires Inv(st)
    ensures Inv(ProcessSpec(st, user, channel, text, prediction, faults))
  {
    if !faults.messageWriteFails {
      InsertMessageValid(st.db, user, channel, text);
      if Succeeds(prediction, faults) {
        var score := Score(prediction.value);
        var e := CacheEntry(user, channel, text, score);
        var stored := InsertMessage(st.db, user, channel, text);
        InsertSentimentValid(stored, st.db.nextId, score);
        AppendScores(st.recentMessages, e);
        AppendKeepsUnitScores(st.sentimentCache, score);
      }
    }
  }

  /**
   All or nothing: the deques change exactly when every step succeeds, and then
   by one append each; the message row is written unless its own insert raises;
   the sentiment row is written exactly on success.
   */
  lemma {:induction false} ProcessAllOrNothing(st: ClassifierState, user: string, channel: string, text: string,
                                               prediction: Option<string>, faults: Faults)
    ensures var st' := ProcessSpec(st, user, channel, text, prediction, faults);
      && (Succeeds(prediction, faults) ==>
            && st'.recentMessages == Append(st.recentMessages, CacheEntry(user, channel, text, Score(prediction.value)), MaxLen)
            && st'.sentimentCache == Append(st.sentimentCache, Score(prediction.value), MaxLen)
            && st'.db.sentiments == st.db.sentiments + [SentimentRow(st.db.nextId, Score(prediction.value))])
      && (!Succeeds(prediction, faults) ==>
            && st'.recentMessages == st.recentMessages
            && st'.sentimentCache == st.sentimentCache
            && st'.db.sentiments == st.db.sentiments)
      && (faults.messageWriteFails ==> st'.db == st.db)
      && (!faults.messageWriteFails ==>
            st'.db.messages == st.db.messages + [MessageRow(st.db.nextId, user, channel, text)])
  {
  }

  /**
   On success the sentiment row points at the message row written by the same
   call, and the new entry and score are the newest in their deques.
   */
  lemma {:induction false} ProcessLinksRows(st: ClassifierState, user: string, channel: string, text: string,
                                            prediction: Option<string>, faults: Faults)
    requires Inv(st) && Succeeds(prediction, faults)
    ensures var st' := ProcessSpec(st, user, channel, text, prediction, faults);
      && |st'.db.messages| > 0 && |st'.db.sentiments| > 0
      && st'.db.sentiments[|st'.db.sentiments| - 1].messageId == st'.db.messages[|st'.db.messages| - 1].id
      && |st'.recentMessages| > 0
      && st'.recentMessages[|st'.recentMessages| - 1] == CacheEntry(user, channel, text, Score(prediction.value))
      && |st'.sentimentCache| == |st'.recentMessages|
      && st'.sentimentCache[|st'.sentimentCache| - 1] == Score(prediction.value)
  {
    var score := Score(prediction.value);
    AppendEffect(st.recentMessages, CacheEntry(user, channel, text, score), MaxLen);
    AppendEffect(st.sentimentCache, score, MaxLen);
  }

  /**
   When the classifier or the sentiment insert raises after the message was
   stored, that message is left with no sentiment row at all.
   */
  lemma {:induction false} ProcessOrphansMessage(st: ClassifierState, user: string, channel: string, text: string,
                                                 prediction: Option<string>, faults: Faults)
    requires Inv(st) && !faults.messageWriteFails && !Succeeds(prediction, faults)
    ensures var st' := ProcessSpec(st, user, channel, text, prediction, faults);
      && st.db.nextId in MessageIds(st'.db.messages)
      && forall k :: 0 <= k < |st'.db.sentiments| ==> st'.db.sentiments[k].messageId != st.db.nextId
  {
    InsertMessageValid(st.db, user, channel, text);
  }

  /** `SentimentClassifier`: the two deques it mutates, and the database it writes to. */
  class SentimentClassifier {
    /** The loaded vectorizer and classifier: the predicted label, `None` when prediction raises. */
    const classify: string -> Option<string>
    var recentMessages: seq<CacheEntry>
    var sentimentCache: seq<real>
    var db: Database

    function View(): ClassifierState
      reads this
    {
      ClassifierState(recentMessages, sentimentCache, db)
    }

    predicate Valid()
      reads this
    {
      Inv(View())
    }

    /** Loads the model, starts both deques empty, and opens the existing tables. */
    constructor(classify: string -> Option<string>, db: Database)
      requires DbValid(db)
      ensures Valid()
      ensures this.classify == classify && recentMessages == [] && sentimentCache == [] && this.db == db
    {
      this.classify := classify;
      recentMessages := [];
      sentimentCache := [];
      this.db := db;
    }

    /** The score for `text`, or `None` when the classifier raises. */
    function AnalyzeSentiment(text: string): (score: Option<real>)
      ensures score.Some? <==> classify(text).Some?
      ensures score.Some? ==> (score.value == 1.0 <==> classify(text).value == "pos")
      ensures score.Some? ==> score.value == 1.0 || score.value == -1.0
    {
      match classify(text)
      case None => None
      case Some(predicted) => Some(Score(predicted))
    }

    /** `store_message`: the new row's id, or `None` when the insert raises. */
    method StoreMessage(user: string, channel: string, text: string, fails: bool) returns (id: Option<nat>)
      modifies this
      ensures fails ==> id.None? && db == old(db)
      ensures !fails ==> id == Some(old(db.nextId)) && db == InsertMessage(old(db), user, channel, text)
      ensures recentMessages == old(recentMessages) && sentimentCache == old(sentimentCache)
      ensures old(Valid()) ==> Valid()
    {
      if fails {
        return None;
      }
      if Valid() {
        InsertMessageValid(db, user, channel, text);
      }
      id := Some(db.nextId);
      db := InsertMessage(db, user, channel, text);
    }

    /**
     `store_sentiment`: whether the insert went through. It is a step inside
     `process_message`, and it keeps `Valid()` only for a message id that is
     already stored: the foreign key is the caller's to respect.
     */
    method StoreSentiment(messageId: nat, score: real, fails: bool) returns (ok: bool)
      modifies this
      ensures ok == !fails
      ensures db == if fails then old(db) else InsertSentiment(old(db), messageId, score)
      ensures recentMessages == old(recentMessages) && sentimentCache == old(sentimentCache)
      ensures old(Valid()) && messageId in MessageIds(old(db.messages)) ==> Valid()
    {
      if Valid() && messageId in MessageIds(db.messages) {
        InsertSentimentValid(db, messageId, score);
      }
      ok := !fails;
      if ok {
        db := InsertSentiment(db, messageId, score);
      }
    }

    /** `process_message`; the exception handler is the early returns. */
    method ProcessMessage(user: string, channel: string, text: string, faults: Faults)
      requires Valid()
      modifies this
      ensures Valid()
      ensures View() == ProcessSpec(old(View()), user, channel, text, classify(text), faults)
    {
      ProcessKeepsInv(View(), user, channel, text, classify(text), faults);
      var id := StoreMessage(user, channel, text, faults.messageWriteFails);
      if id.None? {
        return;
      }
      var score := AnalyzeSentiment(text);
      if score.None? {
        return;
      }
      var ok := StoreSentiment(id.value, score.value, faults.sentimentWriteFails);
      if !ok {
        return;
      }
      recentMessages := Append(recentMessages, CacheEntry(user, channel, text, score.value), MaxLen);
      sentimentCache := Append(sentimentCache, score.value, MaxLen);
    }
  }
}
