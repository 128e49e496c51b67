# AnalyzeMe aggregation engine, in Dafny

AnalyzeMe reads an exported group-chat history, which is a list of message records. It reports per-sender statistics:

- message counts;
- average text length;
- attachment totals;
- like totals or averages;
- a day → sender → count table;
- a 24-bucket hour histogram per sender.

This project models the part of the program that builds those statistics. Each statistic is one pass over the records that updates a dictionary keyed by sender name, or by local day and then sender. Some statistics then go through three more steps:

1. A threshold filter on the sender's message count.
2. An in-place per-user division by that count.
3. An ascending sort by value.

Layout:

- `messages.dfy` (module `Messages`): the message record. It also holds the folds the aggregators are specified against: senders, per-sender tallies of a per-message quantity, totals and filtered sub-sequences. Each fold is defined from the last element, so the fold over `data[..i + 1]` is the fold over `data[..i]` plus one message.
- `sums.dfy` (module `Sums`): `Get` (Python's `d.get(k, 0)`), `Add` (`d[k] = d.get(k, 0) + v`), and sums over a map's values and a sequence's entries, with their update lemmas.
- `daykeys.dfy` (module `DayKeys`): the `"{month}/{day}/{year}"` day key and the proof that it is injective on dates.
- `sorting.dfy` (module `Sorting`): the stable ascending sort of a per-user result by value. It takes the items in dictionary order, which is left unspecified here, and inserts each one after every item already placed whose value is not greater. That is what a stable ascending sort of that order produces.
- `analyze.dfy` (module `AnalyzeMe`): the aggregators themselves.
  - Each one is a method with a `for` loop over the records. The loop updates a local `map` the way the Python code updates its dictionary.
  - Each loop invariant is a predicate tying the map to the folds over the prefix handled so far, with one step lemma per predicate, or a sum, kept by its update lemma.

Outside inputs:

- A message's local day and local hour depend on the host's time zone. They are parameters: `dayOf: int -> CalendarDay` and `hourOf: int -> Hour`, where `Hour` is the integers 0..23.
- Python's float division is modelled as exact `real` division.
- Python 3.7+ semantics are assumed: `/` is true division, and dictionaries keep insertion order.

## Model

| member | source | states |
|---|---|---|
| AnalyzeMe.Count | AnalyzeMe.py:26-30 | The key set is exactly the set of sender names. Each value is that sender's number of messages and is at least 1. The values sum to the number of records. |
| AnalyzeMe.TalliedStep | AnalyzeMe.py:28-29 | Adding one message's quantity under its sender keeps the map equal, key for key, to the per-sender tally over the records seen so far, including when the sender is new. |
| Messages.SenderIffHasMessage | AnalyzeMe.py:28-29 | A name is a sender exactly when it has at least one message, so every dictionary entry created by an update counts at least one message. |
| Messages.TallyOfNonSender | AnalyzeMe.py:29 | A name with no message has a zero tally, which is the `get(name, 0)` default. |
| AnalyzeMe.MessageLength | AnalyzeMe.py:59-71 | The averages are keyed by exactly the senders whose count exceeds the threshold, which is what `FilterByCount` keeps. Each average is the summed text length over that count, and the count is at least 1. The returned sequence is ascending by value and lists each entry of the averages exactly once, so it has one entry per averaged user. |
| Messages.TextlessMessage | AnalyzeMe.py:61-66 | A message without text (`TextLength` is 0 for a missing or null text) adds 0 to its sender's length sum and 1 to their message count. |
| AnalyzeMe.DivideEach | AnalyzeMe.py:69-70 | Dividing in place leaves the key set unchanged. Every value becomes its old value over that user's count. |
| AnalyzeMe.AverageLengthExample | AnalyzeMe.py:59-70 | Texts "ab" and "abcd" from one sender average to 3. |
| Sorting.SortByValue | AnalyzeMe.py:71 | The result is ascending by value, lists every item of the map exactly once and nothing else, and has one entry per key. |
| Sorting.InsertSorted | AnalyzeMe.py:71 | Inserting after every value not greater keeps the sequence ascending and lengthens it by one. |
| Sorting.InsertLists | AnalyzeMe.py:71 | Inserting a new user's entry lists exactly the map extended by that entry. |
| AnalyzeMe.AttachmentCount | AnalyzeMe.py:85-88 | Every sender has a key, even one whose total is 0. Each value is the sender's total attachment count. The values sum to the number of attachments in the input. |
| AnalyzeMe.LikeCount | AnalyzeMe.py:98-110 | The keys are exactly the senders whose count exceeds the threshold, which is what `FilterByCount` keeps, and each such count is at least 1. Each value is the sender's total likes, or with `average` that total over the recomputed count. The divisor is stated as the sender's full message count; the body proves that the recomputed count agrees with the filtered count on every kept user. The returned sequence is ascending, lists the map's items exactly once and has one entry per user. |
| AnalyzeMe.LikeTotals | AnalyzeMe.py:98-101 | Every sender has a key, and each value is the total number of likes on that sender's messages. |
| AnalyzeMe.LikesFiltered | AnalyzeMe.py:102-105 | Filtering the like totals by the message counts (`FilterByCount`) keeps exactly the senders above the threshold, each with their like total and a count of at least 1. |
| AnalyzeMe.LikesAveraged | AnalyzeMe.py:106-109 | Dividing each kept total by the sender's full message count gives, for the same users, likes over messages. |
| AnalyzeMe.LikeTotalExample | AnalyzeMe.py:98-105 | One sender with 2 and 0 likes has a total of 2. |
| AnalyzeMe.LikeAverageExample | AnalyzeMe.py:98-109 | One sender with 2 and 0 likes has an average of 1 over the recomputed count. |
| AnalyzeMe.MessagesPerDay | AnalyzeMe.py:124-129 | A day key is present exactly when some message falls on that day. Each day's inner keys are exactly that day's senders. Every nested count is that sender's number of messages that day and is at least 1. For every user, the counts summed over all days equal their total message count. |
| AnalyzeMe.PerDayStep | AnalyzeMe.py:128-129 | Filing one message under its day and sender keeps the three per-day facts above for the records seen so far. |
| AnalyzeMe.File | AnalyzeMe.py:128-129 | Filing a message adds its day key if missing. It raises the sender's count in that day's bucket by one, starting from 0. Every other day and every other sender of that day is unchanged. |
| AnalyzeMe.FileInTwoSteps | AnalyzeMe.py:128-129 | In both branches, creating the empty inner dictionary when missing and then incrementing in it files the message under its day. |
| AnalyzeMe.SameBucketIffSameDay | AnalyzeMe.py:126-128 | Two messages share a day bucket exactly when they fall on the same local (month, day, year). |
| DayKeys.DayStringInjective | AnalyzeMe.py:127 | Two dates give the same `"{m}/{d}/{y}"` key exactly when they are the same date. |
| DayKeys.DayString | AnalyzeMe.py:127 | The key holds only digits and exactly two '/' separators. |
| DayKeys.NatToString | AnalyzeMe.py:127 | A number renders as a non-empty string of digits, with no leading zero unless the number is 0 and no '/', that reads back as the number. |
| DayKeys.NatToStringInjective | AnalyzeMe.py:127 | Two numbers have the same decimal rendering exactly when they are equal. |
| AnalyzeMe.HourHistogram | AnalyzeMe.py:140-145 | Every sender, and nobody else, has a row of exactly 24 counts. Entry h of a row is the sender's number of messages in local hour h. Each row sums to the sender's message count. |
| AnalyzeMe.Tick | AnalyzeMe.py:143-145 | One message gives its sender a row of 24 counts, starting from zeros when the sender is new. It raises the entry for the message's hour by one and leaves every other hour and every other sender unchanged. |
| AnalyzeMe.AtHourSnoc | AnalyzeMe.py:143-145 | One more message raises a user's count in an hour by one exactly when it is that user's message and was sent in that hour, and otherwise leaves it unchanged. |
| AnalyzeMe.HourCountsStep | AnalyzeMe.py:143-145 | After one tick over `s + [m]`, every sender still has exactly one 24-entry row, and every entry still equals that sender's message count in that hour. |
| AnalyzeMe.HourSumsStep | AnalyzeMe.py:143-145 | One message raises its sender's row sum by exactly one. |
| AnalyzeMe.TickInTwoSteps | AnalyzeMe.py:143-145 | Creating a zero row when missing and then incrementing one entry is a single tick. |

## Left out

- Command-line parsing and dispatch, JSON loading and the output-writing loops. The aggregators take the parsed records and the threshold and average options as parameters.
- The plotting calls, and the stacked chart's assumption of exactly two users. These are presentation through foreign libraries.
- Local-time conversion of `created_at`. It depends on the host's time zone, so the day and hour are caller-supplied functions, and the hour's range is the type `Hour`.
- `humanReadable`: output formatting only, with no aggregation.
- Attachment descriptors: only their number is used, so a message carries `attachments: nat`.
- Missing sender names: the aggregators index the name field directly, so `name` is a required field.
- Missing or null `attachments`, `favorited_by` and `created_at`: the aggregators also index these fields directly (AnalyzeMe.py:88, 101, 126, 142), and a missing field, or a null list passed to `len`, aborts the run. The model makes all three required and well-formed, so those error paths are not modelled.
- Text length: a text is a `seq<char>` of Unicode scalar values, so its length equals Python's `len` except on strings holding lone surrogates, which a Dafny `char` cannot represent.
- Missing versus null `text`: both are `None`, which the length computation treats the same.
- Threshold wording: the command-line help for `len` and `likes` says "Only count users who sent at least n messages" (AnalyzeMe.py:178, 194), but both filters keep only counts strictly above the threshold (AnalyzeMe.py:67-68, 104-105). The model follows the filters, not the help text; which of the two was intended cannot be told from the source.
- AnalyzeMe.MessageLength: averages are exact `real` quotients, not IEEE doubles, so rounding is not modelled.
- AnalyzeMe.LikeCount: the Python function returns nothing. The model returns the map it builds and the sorted sequence. Without `average`, the integer totals are reported as `real` values of the same magnitude.
- Sorting.SortByValue: dictionary insertion order is not modelled. Items are taken in an unspecified order, so the order among equal values is not fixed. The result is given as a sequence of pairs instead of a rebuilt dictionary.
- AnalyzeMe.HourHistogram: each 24-element list is a `seq` value in the map, reassigned on each increment. Aliasing of the Python list is not modelled, and the aggregator never shares one.
