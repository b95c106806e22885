# Twitch chat sentiment reader — Dafny model

This project models the ingestion core of a small Python service, `svm.py`.
The service reads a Twitch channel's chat anonymously over IRC. It scores each
chat post as positive or negative with a pre-trained classifier, writes the post
and its score to SQLite, and keeps the most recent posts and scores in two
bounded in-memory deques. It summarises those deques for a dashboard.

The model has six modules:

- `Wrappers` (`wrappers.dfy`): the `Option` type, for a value that may be missing.
- `Strings` (`strings.dfy`): the Python `str` operations the client relies on, written
  out over `seq<char>`. These are `sub in s`, `s.split(sep, maxsplit)`,
  `s.split(sep)`, `s.strip()` and `s.lower()`. The split/join round trips and the
  strip facts are proved here.
- `Irc` (`irc.dfy`): `parse_irc_message`, the per-line decision of the listen loop
  (answer `PING`, process, or drop), the anonymous handshake, and how the
  configured channel list is normalised.
- `Sentiment` (`sentiment.dfy`): the bounded deque, the label-to-score mapping, the
  two database tables as an append-only value, and `process_message` as a
  specification function `ProcessSpec`. The class `SentimentClassifier` has the
  deques and the database as fields, and its methods are proved against
  `ProcessSpec`.
- `Aggregate` (`aggregate.dfy`): the body of `get_average_sentiment`. It computes
  the window, its length, its average and its three-bucket distribution.
- `Reader` (`reader.dfy`): the class `TwitchReader` (`AnonymousTwitchReader`). It has
  the handshake loop, the per-line handler and the listen loop. The loop's effect
  on the reply stream, on `message_count` and on the classifier is given by folds
  over the delivered lines.

Points where the code behaves otherwise than a reader might expect; the model
follows the code:

- **A persistence failure skips the cache update.** `process_message` writes the
  message, classifies it, writes the score and then appends to both deques, all
  inside one `try`. If either write or the classifier raises, neither deque
  changes. A message whose classification or score insert raised stays in
  `twitch_messages` with no row in `message_sentiments`
  (`Sentiment.ProcessOrphansMessage`).
- **Scores are exactly ±1.0.** They are never a graded value, so the neutral
  bucket of a snapshot over the classifier's deque is always empty
  (`Aggregate.ClassifierSnapshot`).
- **The non-empty snapshot has no average.** `get_average_sentiment` computes the
  average but does not put it in the dictionary it returns. `Aggregate.Snapshot`
  has the same shape. `Aggregate.Average` models the computed value.
- **The dashboard entry point is unreachable.** `get_average_sentiment` is
  indented inside `process_message` (svm.py:119), so the class has no such
  method. It also slices a `deque` (svm.py:127), which Python refuses. The model
  reads the body as evidently meant, over a list of scores.
- **`PING` anywhere wins.** Any line containing `PING` anywhere is answered with a
  `PONG` and never parsed. That includes a chat post whose text mentions it
  (`Irc.DispatchChatMentioningPing`).

## Model

| member | source | states |
|---|---|---|
| Strings.Contains | svm.py:151 | Python's `sub in s`: true exactly when `sub` occurs at some index of `s` |
| Strings.SplitN | svm.py:153 | `s.split(sep, n)` gives at least one and at most `n + 1` pieces |
| Strings.SplitNLength | svm.py:153 | `s.split(sep, n)` gives one more piece than the number of separators, capped at `n + 1` pieces |
| Strings.SplitNPieces | svm.py:153 | no piece but the last holds the separator; the last is separator-free too when fewer than `n` splits happened |
| Strings.SplitNJoinBack | svm.py:153 | re-joining the pieces of `s.split(sep, n)` with `sep` gives back `s` |
| Strings.SplitNJoin | svm.py:153 | splitting a `sep`-join of at most `n + 1` separator-free pieces gives back those pieces |
| Strings.SplitAll | svm.py:268 | `s.split(sep)` gives one more piece than `s` has separators |
| Strings.SplitAllJoin | svm.py:268 | `s.split(',')` of a comma-join of comma-free pieces gives back the pieces |
| Strings.SplitAllPieces | svm.py:268 | no piece of `s.split(sep)` contains `sep` |
| Strings.SplitAllFirst | svm.py:268 | `s.split(sep)` of `a + sep + b`, with `a` free of `sep`, is `a` followed by the pieces of `b` |
| Strings.SplitAllNone | svm.py:268 | `s.split(sep)` of a string without `sep` is that string alone |
| Strings.UpTo | svm.py:157 | `s.split(c)[0]` is the prefix of `s` before the first `c`, free of `c` |
| Strings.DropLeading | svm.py:159-163 | removes at most one leading `c`, and exactly one when `s` starts with it |
| Strings.Strip | svm.py:268 | `strip()` is never longer than its input |
| Strings.StripResult | svm.py:268 | `strip()` leaves no whitespace at either end |
| Strings.StripIsInfix | svm.py:268 | `strip()` returns a contiguous slice of `s` and removes only whitespace before and after it |
| Strings.StripIdempotent | svm.py:268 | stripping twice is stripping once |
| Strings.Lower | svm.py:144 | `lower()` keeps the length and works character by character |
| Strings.LowerResult | svm.py:144 | `lower()` turns each capital `A`–`Z` into the lower-case letter at the same place in `a`–`z`, keeps every other character, leaves no capital, and is idempotent |
| Irc.ParseIrcMessage | svm.py:148-169 | a decoded user never contains `!` |
| Irc.ParseAcceptsExactly | svm.py:151-169 | a line decodes exactly when it contains `PRIVMSG`, does not start with `PING`, has at least three spaces and starts with `:`; otherwise the result is the all-`None` triple |
| Irc.ParseRoundTrip | svm.py:152-165 | `:nick!host PRIVMSG #channel :text` decodes to `(nick, channel, text)`; text keeps its spaces, colons and `#` |
| Irc.ParseExample | svm.py:152-165 | `:alice!alice@x PRIVMSG #somechannel :hello world` decodes to `("alice", "somechannel", "hello world")` |
| Irc.Dispatch | svm.py:192-205 | a line gets a `PONG` exactly when it contains `PING`; a processed post has non-empty user, channel and text |
| Irc.DispatchProcessExactly | svm.py:193-205 | a line is processed exactly when it has no `PING`, decodes, and all three fields are non-empty |
| Irc.DispatchChatPost | svm.py:198-205 | a well-formed post with non-empty fields and no `PING` is processed with the fields it carries |
| Irc.DispatchChatMentioningPing | svm.py:193-196 | a post whose text mentions `PING` decodes correctly but is answered with `PONG` and not processed |
| Irc.HandshakeLines | svm.py:181-186 | the handshake is `PASS oauth:justinfan12345`, `NICK justinfan12345`, then `JOIN #<ch>` for each channel in order |
| Irc.StripNonEmpty | svm.py:268 | `[ch.strip() for ch in parts if ch.strip()]` has at most one entry per part, each non-empty with no whitespace at either end |
| Irc.StripNonEmptyOne | svm.py:268 | one part gives its stripped text exactly when that is not empty, and nothing otherwise |
| Irc.StripNonEmptyAppend | svm.py:268 | the entries for `a + b` are those for `a` followed by those for `b`, so every non-blank part gives its stripped text, in order |
| Irc.ParseChannelList | svm.py:268 | the list read from the setting has at most one channel per comma-separated field, each non-empty, stripped and comma-free |
| Irc.ParseChannelListField | svm.py:268 | the setting is read field by field: the first field gives its stripped text unless it is blank, then the rest of the setting follows |
| Irc.ParseChannelListLast | svm.py:268 | a setting without a comma gives its stripped text unless it is blank, and nothing otherwise |
| Irc.ChannelListRoundTrip | svm.py:268 | a comma-joined list of clean names is read back as that list, in order |
| Irc.LowerAll | svm.py:144 | `[ch.lower() for ch in channels]` keeps one entry per channel, in order, each lower-cased |
| Irc.ConfiguredChannels | svm.py:268 | the channels the reader joins are non-empty, stripped, comma-free and free of upper-case letters |
| Irc.LowerAllAppend | svm.py:144 | lower-casing a list of channels works entry by entry, across a concatenation |
| Irc.ConfiguredChannelsField | svm.py:268 | the joined channels, field by field: the first field gives its stripped, lower-cased text unless it is blank, then the rest follows |
| Irc.ConfiguredChannelsLast | svm.py:268 | a setting without a comma gives its stripped, lower-cased text unless it is blank, and nothing otherwise |
| Sentiment.Append | svm.py:18-19 | a `deque(maxlen=cap)` never holds more than `cap` items |
| Sentiment.AppendEffect | svm.py:102-109 | the new item is newest; below capacity nothing is lost; at capacity only the oldest goes and the rest keep their order |
| Sentiment.AppendAllIsLast | svm.py:18-19 | after any run of appends the deque holds the newest `cap` of all items, in order |
| Sentiment.InsertMessage | svm.py:65-70 | an insert into `twitch_messages` keeps every row, adds one row with the given fields under the next id, advances the id, and leaves `message_sentiments` alone |
| Sentiment.InsertMessageValid | svm.py:65-70 | an insert into `twitch_messages` gets a fresh `AUTOINCREMENT` id and keeps ids increasing and foreign keys intact |
| Sentiment.InsertSentiment | svm.py:81-84 | an insert into `message_sentiments` keeps every row, adds one row pairing the message id with its score, and leaves `twitch_messages` alone |
| Sentiment.InsertSentimentValid | svm.py:81-84 | a sentiment row for a stored message keeps the foreign key `message_id → twitch_messages.id` intact |
| Sentiment.Score | svm.py:58 | a score is always +1.0 or -1.0 |
| Sentiment.ScoreOfLabel | svm.py:58 | the score is +1.0 exactly for the label `pos`, which is then reported as `POSITIVE` |
| Sentiment.ProcessSpec | svm.py:89-117 | one `process_message` call never removes or reorders a table row, and adds at most one row to each table |
| Sentiment.ProcessKeepsInv | svm.py:89-117 | whatever raises, the deques stay equally long, within 1000 and index-aligned; scores stay ±1; the tables stay well formed |
| Sentiment.ProcessAllOrNothing | svm.py:91-117 | the deques change exactly when both writes and the classifier succeed, and then by one append each; the message row is written unless its own insert raises; the score row only on full success |
| Sentiment.ProcessLinksRows | svm.py:93-109 | on success the score row refers to the id of the message row written by the same call, and the entry and score are newest in their deques |
| Sentiment.ProcessOrphansMessage | svm.py:91-117 | if classification or the score insert raises, the stored message has no sentiment row |
| Sentiment.SentimentClassifier.constructor | svm.py:15-23 | starts with both deques empty over the existing tables |
| Sentiment.SentimentClassifier.AnalyzeSentiment | svm.py:54-58 | no score exactly when prediction raises; otherwise ±1.0, +1.0 exactly for `pos` |
| Sentiment.SentimentClassifier.StoreMessage | svm.py:60-74 | returns the new row's id and appends the row, or returns nothing and changes nothing when the insert raises; the invariant is kept |
| Sentiment.SentimentClassifier.StoreSentiment | svm.py:76-87 | appends the score row unless the insert raises; the invariant is kept when the id is that of a stored message |
| Sentiment.SentimentClassifier.ProcessMessage | svm.py:89-117 | the new state is `ProcessSpec` of the old one, and the invariant holds |
| Aggregate.Window | svm.py:127 | `scores[-n:]` is a run of the newest scores, and the newest `min(n, len)` of them for `n > 0` |
| Aggregate.WindowIsNewest | svm.py:127 | `scores[-n:]` is everything for `n == 0`, and all but the oldest `-n` scores for `n < 0` |
| Aggregate.GetAverageSentiment | svm.py:119-139 | empty deque: average 0 and count 0; otherwise the window is the newest `min(n, len)` scores, the count is its length, each bucket is the `Count` of its filter over the window, and the buckets add up to the count |
| Aggregate.Sum | svm.py:128 | the sum of scores in [-1, 1] lies between minus and plus their number |
| Aggregate.Average | svm.py:128 | an average exists exactly for a non-empty window |
| Aggregate.ExactlyOneBucket | svm.py:135-137 | each score is in exactly one of `> 0.1`, `-0.1..0.1`, `< -0.1` |
| Aggregate.Count | svm.py:134-138 | a bucket never counts more scores than there are |
| Aggregate.CountOne | svm.py:135-137 | one score is counted in a bucket exactly when that bucket's filter accepts it |
| Aggregate.CountAppend | svm.py:135-137 | the count over `xs + ys` is the count over `xs` plus the count over `ys` |
| Aggregate.CountIsCardinality | svm.py:135-137 | a bucket's count is the number of positions whose score its filter (`> 0.1`, `-0.1..0.1`, `< -0.1`) accepts |
| Aggregate.Distribute | svm.py:134-138 | `positive`, `neutral` and `negative` are the `Count`s of their filters over the scores, and add up to the number of scores |
| Aggregate.BucketsPartition | svm.py:134-138 | positive + neutral + negative equals the number of scores |
| Aggregate.UnitScoresCount | svm.py:135-137 | ±1 scores are never neutral and sum to positives minus negatives |
| Aggregate.AverageBounds | svm.py:128 | the average of scores in [-1, 1] lies in [-1, 1] |
| Aggregate.ClassifierSnapshot | svm.py:121-139 | over the classifier's deque the snapshot has no neutral scores, and the window's average is (positive − negative) / count |
| Aggregate.ThreeMessageExample | svm.py:127-138 | scores `[1.0, -1.0, 0.0]` over a window of 3 give count 3, one score per bucket, and average 0 |
| Reader.Replies | svm.py:192-196 | the replies are only `PONG :tmi.twitch.tv`, never more than the lines |
| Reader.RepliesOne | svm.py:193-196 | one line is answered with one `PONG :tmi.twitch.tv` exactly when it contains `PING`, and with nothing otherwise |
| Reader.RepliesAppend | svm.py:192-196 | the replies to `a + b` are those to `a` followed by those to `b`, so there is one `PONG` per `PING` line, in order |
| Reader.ProcessedCount | svm.py:192-201 | at most one message counted per delivered line |
| Reader.Step | svm.py:198-205 | a line that is not processed leaves the classifier unchanged; a line never removes a table row and adds at most one message row |
| Reader.StepStoresEvent | svm.py:198-205 | a processed line passes its own decoded user, channel and text to `process_message`: unless the message insert raises, the table gains exactly the row `(next id, user, channel, text)`; on full success both deques gain that post's entry and score, and the score row pairs the same id with it |
| Reader.ChatPostStored | svm.py:148-205 | a chat post `:nick!host PRIVMSG #channel :text` that the loop processes is stored as the row `(nick, channel, text)`, and on full success is the newest entry of the message deque |
| Reader.ProcessAll | svm.py:192-205 | listening never removes a table row, and adds at most one message row per processed line |
| Reader.ProcessAllKeepsInv | svm.py:192-205 | the classifier's invariant holds after any run of lines and failures |
| Reader.RepliesArePongs | svm.py:193-196 | every reply is `PONG :tmi.twitch.tv`, and the answered lines plus the processed lines never outnumber the delivered lines |
| Reader.ListenKeepsNewestScores | svm.py:192-205 | after listening, the score deque is the newest 1000 of its old scores followed by the scores of lines processed without error |
| Reader.TwitchReader.constructor | svm.py:143-146 | channels lower-cased; count zero |
| Reader.TwitchReader.Handshake | svm.py:181-187 | writes exactly the handshake lines, in order |
| Reader.TwitchReader.HandleLine | svm.py:193-205 | one `PONG` for a `PING` line; count +1 and `process_message` exactly for a processed post; nothing else |
| Reader.TwitchReader.Listen | svm.py:192-205 | replies, count and classifier state are the folds over the delivered lines |
| Reader.TwitchReader.ConnectAndListen | svm.py:171-205 | the handshake, then the listen loop |

## Left out

- The websocket, `async`, `asyncio`, the unused `threading.Lock` and all exception handlers of `connect_and_listen`. The connection is modelled as the sequence of delivered lines and a list of sent lines. A dropped connection is the end of that sequence.
- SQLite itself: `init_database`, the `CREATE TABLE` statements, connections and commits, and `check_database_content`. The tables are an append-only value. Each insert takes a flag saying whether it raises. The store starts from tables that already exist (`SentimentClassifier.constructor` takes them); those tables are assumed well formed: ids positive, increasing and below the next id, and every score row naming a stored message. Every table this program writes is so, but SQLite does not itself enforce the foreign key unless asked to. A row's timestamps and the sentiment table's own id column are not modelled.
- Pickle loading and the vectorizer/classifier. They are one function from text to an optional label, where `None` means prediction raised.
- `datetime.utcnow()` timestamps and all `print` output. The `POSITIVE`/`NEGATIVE` word of the log line is kept in `Sentiment.SentimentLabel`.
- Floating point. Scores, thresholds and the average are exact `real`s. NumPy's NaN for an empty window is `None`.
- `svm.main`: the model-file and environment checks, including the early return when `TWITCH_CHANNEL` is empty. The channel split at svm.py:268 is modelled.
- The web API and the thread bootstrap of the service. They are plumbing and timing around the core.
- Strings.Lower, Strings.LowerResult, Irc.LowerAll, Irc.ConfiguredChannels, Irc.ConfiguredChannelsField, Irc.ConfiguredChannelsLast, Reader.TwitchReader.constructor: `lower()` is modelled for ASCII letters only, one character to one character. Python also lower-cases other Unicode letters, and a few of them (such as `'İ'`) become two code points, so Python's `lower()` need not keep the length.
- Aggregate.GetAverageSentiment: the default `n_messages = 50` of svm.py:119 is not modelled; the window size is always passed in.
- Aggregate.GetAverageSentiment: models the body as evidently intended, over a list of scores. As written it is an unreachable nested `def`, and on a real `deque` its slice would raise `TypeError`.
