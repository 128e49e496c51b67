/**
 * The aggregation engine of AnalyzeMe: one pass over the message records per
 * statistic, each building a dictionary keyed by sender name (or by local day,
 * then sender name), followed where the statistic calls for it by a threshold
 * filter, a per-user average and an ascending sort by value.
 *
 * The records arrive already parsed; the host's local-time conversion of
 * `created_at` is supplied by the caller as `dayOf` and `hourOf`.
 */
module AnalyzeMe {
  import opened Messages
  import opened Sums
  import opened DayKeys
  import opened Sorting

  /**
   * Keeps the entries of `m` whose user's count exceeds `threshold`. The
   * Python filter looks every user of `m` up in `counts`, so each of them
   * must have a count.
   */
  function FilterByCount<V>(m: map<string, V>, counts: map<string, nat>, threshold: int): map<string, V>
    requires m.Keys <= counts.Keys
  {
    map u | u in m && counts[u] > threshold :: m[u]
  }

  /** Filtering messages never adds a sender. */
  lemma {:induction false} WhereSenders(s: seq<Message>, p: Message -> bool)
    ensures Senders(Where(s, p)) <= Senders(s)
  {
    if s != [] {
      var q, m := s[..|s| - 1], s[|s| - 1];
      assert s == q + [m];
      WhereSenders(q, p);
      WhereSnoc(q, m, p);
      SendersSnoc(q, m);
      if p(m) {
        SendersSnoc(Where(q, p), m);
      } else {
        assert Where(s, p) == Where(q, p);
      }
    }
  }

  /** `r` holds, for each sender of `s` and nobody else, the sum of `f` over their messages. */
  ghost predicate Tallied(s: seq<Message>, f: Message -> nat, r: map<string, nat>)
  {
    r.Keys == Senders(s) && forall u :: u in r ==> r[u] == Tally(s, u, f)
  }

  /** Adding one message's `f` under its sender keeps `Tallied`. */
  lemma TalliedStep(s: seq<Message>, m: Message, f: Message -> nat, r: map<string, nat>)
    requires Tallied(s, f, r)
    ensures Tallied(s + [m], f, Add(r, m.name, f(m)))
  {
    SendersSnoc(s, m);
    TallySnoc(s, m, f);
    if m.name !in r {
      TallyOfNonSender(s, m.name, f);
    }
  }

  /** Every sender has at least one message. */
  lemma SendersCounted(s: seq<Message>)
    ensures forall u :: u in Senders(s) ==> CountOf(s, u) >= 1
  {
    forall u | u in Senders(s) ensures CountOf(s, u) >= 1 {
      SenderIffHasMessage(s, u);
    }
  }

  // ---------------------------------------------------------------------------
  // count

  /** Messages per sender. */
  method Count(data: seq<Message>) returns (counts: map<string, nat>)
    ensures counts.Keys == Senders(data)
    ensures forall u :: u in counts ==> counts[u] == CountOf(data, u) && counts[u] >= 1
    ensures MapSum(counts) == |data|
  {
    counts := map[];
    for i := 0 to |data|
      invariant Tallied(data[..i], One, counts)
      invariant MapSum(counts) == i
    {
      var m := data[i];
      PrefixStep(data, i);
      TalliedStep(data[..i], m, One, counts);
      MapSumAdd(counts, m.name, 1);
      counts := counts[m.name := Get(counts, m.name) + 1];
    }
    assert data[..|data|] == data;
    SendersCounted(data);
  }

  // ---------------------------------------------------------------------------
  // The per-user averaging step shared by messageLength and likeCount.

  /** Replaces each user's value by that value divided by the user's count. */
  method DivideEach(m: map<string, real>, counts: map<string, nat>) returns (r: map<string, real>)
    requires m.Keys <= counts.Keys
    requires forall u :: u in m ==> counts[u] >= 1
    ensures r.Keys == m.Keys
    ensures forall u :: u in r ==> r[u] == m[u] / counts[u] as real
  {
    r := m;
    var pending := m.Keys;
    while pending != {}
      invariant pending <= m.Keys && r.Keys == m.Keys
      invariant forall u :: u in m && u !in pending ==> r[u] == m[u] / counts[u] as real
      invariant forall u :: u in pending ==> r[u] == m[u]
      decreases pending
    {
      var u :| u in pending;
      r := r[u := r[u] / counts[u] as real];
      pending := pending - {u};
    }
  }

  // ---------------------------------------------------------------------------
  // messageLength

  /**
   * Average text length per sender, over the senders with more than
   * `threshold` messages, together with those averages in ascending order.
   */
  method MessageLength(data: seq<Message>, threshold: int)
    returns (averages: map<string, real>, ordered: seq<Entry>)
    ensures forall u :: u in averages <==> u in Senders(data) && CountOf(data, u) > threshold
    ensures forall u :: u in averages ==>
      CountOf(data, u) >= 1 && averages[u] == TextLengthOf(data, u) as real / CountOf(data, u) as real
    ensures SortedByValue(ordered) && ListsItemsOf(ordered, averages)
    ensures |ordered| == |averages|
  {
    var lens: map<string, nat> := map[];
    var msgs: map<string, nat> := map[];
    for i := 0 to |data|
      invariant Tallied(data[..i], TextLength, lens)
      invariant Tallied(data[..i], One, msgs)
    {
      var m := data[i];
      var length := TextLength(m);
      PrefixStep(data, i);
      TalliedStep(data[..i], m, TextLength, lens);
      TalliedStep(data[..i], m, One, msgs);
      lens := lens[m.name := Get(lens, m.name) + length];
      msgs := msgs[m.name := Get(msgs, m.name) + 1];
    }
    assert data[..|data|] == data;
    SendersCounted(data);
    lens := FilterByCount(lens, msgs, threshold);
    msgs := FilterByCount(msgs, msgs, threshold);
    averages := DivideEach(map u | u in lens :: lens[u] as real, msgs);
    ordered := SortByValue(averages);
  }

  /** A tally over two messages, written out. */
  lemma TallyOfTwo(a: Message, b: Message, u: string, f: Message -> nat)
    ensures Tally([a, b], u, f) == (if a.name == u then f(a) else 0) + (if b.name == u then f(b) else 0)
  {
    TallySnoc([], a, f);
    TallySnoc([a], b, f);
    assert [] + [a] == [a] && [a] + [b] == [a, b];
  }

  /** One sender's two messages, with texts "ab" and "abcd". */
  function TextPair(): seq<Message>
  {
    [Message("ann", 0, Some("ab"), [], 0), Message("ann", 1, Some("abcd"), [], 0)]
  }

  /** In `TextPair`, "ann" sent 2 messages holding 6 characters. */
  lemma TextPairTallies()
    ensures "ann" in Senders(TextPair())
    ensures CountOf(TextPair(), "ann") == 2 && TextLengthOf(TextPair(), "ann") == 6
  {
    var data := TextPair();
    TallyOfTwo(data[0], data[1], "ann", One);
    TallyOfTwo(data[0], data[1], "ann", TextLength);
    SenderIffHasMessage(data, "ann");
  }

  /** Texts "ab" and "abcd" from one sender average to 3 characters. */
  method AverageLengthExample() returns (average: real)
    ensures average == 3.0
  {
    TextPairTallies();
    var averages, _ := MessageLength(TextPair(), 0);
    average := averages["ann"];
    assert average == 6.0 / 2.0;
  }

  // ---------------------------------------------------------------------------
  // attachmentCount

  /** Attachments per sender; every sender has an entry, possibly 0. */
  method AttachmentCount(data: seq<Message>) returns (attachments: map<string, nat>)
    ensures attachments.Keys == Senders(data)
    ensures forall u :: u in attachments ==> attachments[u] == AttachmentsOf(data, u)
    ensures MapSum(attachments) == Total(data, Attachments)
  {
    attachments := map[];
    for i := 0 to |data|
      invariant Tallied(data[..i], Attachments, attachments)
      invariant MapSum(attachments) == Total(data[..i], Attachments)
    {
      var m := data[i];
      PrefixStep(data, i);
      TalliedStep(data[..i], m, Attachments, attachments);
      TotalSnoc(data[..i], m, Attachments);
      MapSumAdd(attachments, m.name, Attachments(m));
      var a := Get(attachments, m.name);
      attachments := attachments[m.name := a + Attachments(m)];
    }
    assert data[..|data|] == data;
  }

  // ---------------------------------------------------------------------------
  // likeCount

  /**
   * What likeCount reports: exactly the senders with more than `threshold`
   * messages, each with their like total or, with `average`, that total over
   * their message count.
   */
  ghost predicate LikesReported(data: seq<Message>, threshold: int, average: bool, likes: map<string, real>)
  {
    && (forall u :: u in likes <==> u in Senders(data) && CountOf(data, u) > threshold)
    && (forall u :: u in likes ==> CountOf(data, u) >= 1)
    && (forall u :: u in likes ==>
          likes[u] == if average then LikesOf(data, u) as real / CountOf(data, u) as real
                      else LikesOf(data, u) as real)
  }

  /** The filtered totals, as reals, are the report without averaging. */
  lemma LikesFiltered(data: seq<Message>, threshold: int, totals: map<string, nat>, counts: map<string, nat>)
    requires totals.Keys == Senders(data) && forall u :: u in totals ==> totals[u] == LikesOf(data, u)
    requires counts.Keys == Senders(data)
    requires forall u :: u in counts ==> counts[u] == CountOf(data, u) && counts[u] >= 1
    ensures var kept := FilterByCount(totals, counts, threshold);
      LikesReported(data, threshold, false, map u | u in kept :: kept[u] as real)
  {
  }

  /** Dividing the report's totals by the message counts gives the averaged report. */
  lemma LikesAveraged(data: seq<Message>, threshold: int, totals: map<string, real>,
                      counts: map<string, nat>, averages: map<string, real>)
    requires LikesReported(data, threshold, false, totals)
    requires forall u :: u in totals ==> u in counts && counts[u] == CountOf(data, u)
    requires averages.Keys == totals.Keys
    requires forall u :: u in averages ==> averages[u] == totals[u] / counts[u] as real
    ensures LikesReported(data, threshold, true, averages)
  {
  }

  /** The number of likes per sender: the dictionary-building loop of likeCount. */
  method LikeTotals(data: seq<Message>) returns (totals: map<string, nat>)
    ensures totals.Keys == Senders(data)
    ensures forall u :: u in totals ==> totals[u] == LikesOf(data, u)
  {
    totals := map[];
    for i := 0 to |data|
      invariant Tallied(data[..i], Likes, totals)
    {
      var m := data[i];
      PrefixStep(data, i);
      TalliedStep(data[..i], m, Likes, totals);
      var l := Get(totals, m.name);
      totals := totals[m.name := l + Likes(m)];
    }
    assert data[..|data|] == data;
  }

  /**
   * Likes per sender over the senders with more than `threshold` messages:
   * the total, or with `average` the total divided by the sender's message
   * count; together with those values in ascending order.
   */
  method LikeCount(data: seq<Message>, threshold: int, average: bool)
    returns (likes: map<string, real>, ordered: seq<Entry>)
    ensures forall u :: u in likes <==> u in Senders(data) && CountOf(data, u) > threshold
    ensures forall u :: u in likes ==> CountOf(data, u) >= 1
    ensures forall u :: u in likes ==>
      likes[u] == if average then LikesOf(data, u) as real / CountOf(data, u) as real
                  else LikesOf(data, u) as real
    ensures SortedByValue(ordered) && ListsItemsOf(ordered, likes)
    ensures |ordered| == |likes|
  {
    var totals := LikeTotals(data);
    var counts := Count(data);
    LikesFiltered(data, threshold, totals, counts);
    totals := FilterByCount(totals, counts, threshold);
    counts := FilterByCount(counts, counts, threshold);
    likes := map u | u in totals :: totals[u] as real;
    if average {
      // The denominators come from a fresh, unfiltered count; on every user
      // that survived the filter it agrees with the filtered one.
      ghost var filtered := counts;
      counts := Count(data);
      assert forall u :: u in likes ==> counts[u] == filtered[u];
      ghost var before := likes;
      likes := DivideEach(likes, counts);
      LikesAveraged(data, threshold, before, counts, likes);
    }
    ordered := SortByValue(likes);
  }

  /** One sender's two messages, with 2 and 0 likes. */
  function LikedPair(): seq<Message>
  {
    [Message("bo", 0, None, ["ann", "cy"], 0), Message("bo", 1, None, [], 0)]
  }

  /** In `LikedPair`, "bo" sent 2 messages that received 2 likes. */
  lemma LikedPairTallies()
    ensures "bo" in Senders(LikedPair())
    ensures CountOf(LikedPair(), "bo") == 2 && LikesOf(LikedPair(), "bo") == 2
  {
    var data := LikedPair();
    TallyOfTwo(data[0], data[1], "bo", One);
    TallyOfTwo(data[0], data[1], "bo", Likes);
    SenderIffHasMessage(data, "bo");
  }

  /** Likes 2 and 0 on one sender's two messages total 2. */
  method LikeTotalExample() returns (total: real)
    ensures total == 2.0
  {
    LikedPairTallies();
    var totals, _ := LikeCount(LikedPair(), 0, false);
    total := totals["bo"];
  }

  /** Likes 2 and 0 on one sender's two messages average 1 over the recomputed count. */
  method LikeAverageExample() returns (average: real)
    ensures average == 1.0
  {
    LikedPairTallies();
    var averages, _ := LikeCount(LikedPair(), 0, true);
    average := averages["bo"];
    assert average == 2.0 / 2.0;
  }

  // ---------------------------------------------------------------------------
  // messagesPerDay

  /** The bucket a message is filed under. */
  function DayKey(dayOf: int -> CalendarDay, m: Message): string
  {
    DayString(dayOf(m.createdAt))
  }

  /** Holds of the messages filed under `key`. */
  function OnDay(dayOf: int -> CalendarDay, key: string): Message -> bool
  {
    (m: Message) => DayKey(dayOf, m) == key
  }

  /**
   * Two messages share a bucket exactly when they fall on the same local
   * (month, day, year): the key string is a faithful name for the date.
   */
  lemma SameBucketIffSameDay(dayOf: int -> CalendarDay, m1: Message, m2: Message)
    ensures DayKey(dayOf, m1) == DayKey(dayOf, m2) <==> dayOf(m1.createdAt) == dayOf(m2.createdAt)
  {
    DayStringInjective(dayOf(m1.createdAt), dayOf(m2.createdAt));
  }

  /** One user's count in each day bucket (0 where they sent nothing that day). */
  ghost function Column(dates: map<string, map<string, nat>>, u: string): map<string, nat>
  {
    map d | d in dates :: Get(dates[d], u)
  }

  /** Replacing one day's inner map changes a user's column sum by the difference. */
  lemma ColumnUpdate(dates: map<string, map<string, nat>>, d: string, inner: map<string, nat>, u: string)
    ensures MapSum(Column(dates[d := inner], u)) + Get(Column(dates, u), d)
         == MapSum(Column(dates, u)) + Get(inner, u)
  {
    assert Column(dates[d := inner], u) == Column(dates, u)[d := Get(inner, u)];
    MapSumUpdate(Column(dates, u), d, Get(inner, u));
  }

  /** The inner map filed under `key`, or an empty one. */
  function Bucket(dates: map<string, map<string, nat>>, key: string): map<string, nat>
  {
    if key in dates then dates[key] else map[]
  }

  /** `dates` after one more message of `name` is filed under `key`. */
  function File(dates: map<string, map<string, nat>>, key: string, name: string): (r: map<string, map<string, nat>>)
    ensures r.Keys == dates.Keys + {key}
    ensures forall d :: d in dates && d != key ==> r[d] == dates[d]
    ensures r[key].Keys == Bucket(dates, key).Keys + {name}
    ensures r[key][name] == Get(Bucket(dates, key), name) + 1
    ensures forall u :: u in Bucket(dates, key) && u != name ==> r[key][u] == Bucket(dates, key)[u]
  {
    dates[key := Add(Bucket(dates, key), name, 1)]
  }

  /** Opening the bucket and then counting in it is `File`. */
  lemma FileInTwoSteps(dates: map<string, map<string, nat>>, key: string, name: string)
    ensures key !in dates ==>
      var o := dates[key := map[]]; o[key := Add(o[key], name, 1)] == File(dates, key, name)
    ensures key in dates ==> dates[key := Add(dates[key], name, 1)] == File(dates, key, name)
  {
  }

  /** A day has a bucket exactly when some message of `s` falls on it. */
  ghost predicate DaysPresent(s: seq<Message>, dayOf: int -> CalendarDay, dates: map<string, map<string, nat>>)
  {
    forall d :: d in dates <==> Where(s, OnDay(dayOf, d)) != []
  }

  /** Each day's bucket counts exactly the senders of that day's messages. */
  ghost predicate DayCounts(s: seq<Message>, dayOf: int -> CalendarDay, dates: map<string, map<string, nat>>)
  {
    && (forall d :: d in dates ==> dates[d].Keys == Senders(Where(s, OnDay(dayOf, d))))
    && (forall d, u :: d in dates && u in dates[d] ==>
          dates[d][u] == CountOf(Where(s, OnDay(dayOf, d)), u) && dates[d][u] >= 1)
  }

  /** Summed over all days, each user's counts give their message count. */
  ghost predicate ColumnsSum(s: seq<Message>, dates: map<string, map<string, nat>>)
  {
    forall u :: MapSum(Column(dates, u)) == CountOf(s, u)
  }

  lemma DaysPresentStep(s: seq<Message>, m: Message, dayOf: int -> CalendarDay, dates: map<string, map<string, nat>>)
    requires DaysPresent(s, dayOf, dates)
    ensures DaysPresent(s + [m], dayOf, File(dates, DayKey(dayOf, m), m.name))
  {
    forall d ensures d in File(dates, DayKey(dayOf, m), m.name) <==> Where(s + [m], OnDay(dayOf, d)) != [] {
      OnDaySnoc(s, m, dayOf, d);
    }
  }

  /** The bucket of the day `m` falls on, after `m` is filed. */
  lemma TodayCounted(today: seq<Message>, m: Message, b: map<string, nat>)
    requires b.Keys == Senders(today)
    requires forall u :: u in b ==> b[u] == CountOf(today, u) && b[u] >= 1
    ensures Add(b, m.name, 1).Keys == Senders(today + [m])
    ensures forall u :: u in Add(b, m.name, 1) ==>
      Add(b, m.name, 1)[u] == CountOf(today + [m], u) && Add(b, m.name, 1)[u] >= 1
  {
    SendersSnoc(today, m);
    TallySnoc(today, m, One);
    if m.name !in b {
      TallyOfNonSender(today, m.name, One);
    }
  }

  /** A message is filed under its own day and no other. */
  lemma OnDaySnoc(s: seq<Message>, m: Message, dayOf: int -> CalendarDay, d: string)
    ensures d == DayKey(dayOf, m) ==> Where(s + [m], OnDay(dayOf, d)) == Where(s, OnDay(dayOf, d)) + [m]
    ensures d != DayKey(dayOf, m) ==> Where(s + [m], OnDay(dayOf, d)) == Where(s, OnDay(dayOf, d))
  {
    WhereSnoc(s, m, OnDay(dayOf, d));
  }

  lemma DayCountsStep(s: seq<Message>, m: Message, dayOf: int -> CalendarDay, dates: map<string, map<string, nat>>)
    requires DaysPresent(s, dayOf, dates) && DayCounts(s, dayOf, dates)
    ensures DayCounts(s + [m], dayOf, File(dates, DayKey(dayOf, m), m.name))
  {
    var key := DayKey(dayOf, m);
    var b := Bucket(dates, key);
    var filed := File(dates, key, m.name);
    var today := Where(s, OnDay(dayOf, key));
    assert b.Keys == Senders(today);
    TodayCounted(today, m, b);
    forall d | d in filed
      ensures filed[d].Keys == Senders(Where(s + [m], OnDay(dayOf, d)))
      ensures forall u :: u in filed[d] ==>
        filed[d][u] == CountOf(Where(s + [m], OnDay(dayOf, d)), u) && filed[d][u] >= 1
    {
      OnDaySnoc(s, m, dayOf, d);
      if d == key {
        assert filed[d] == Add(b, m.name, 1);
      } else {
        assert filed[d] == dates[d];
      }
    }
  }

  lemma ColumnsSumStep(s: seq<Message>, m: Message, dayOf: int -> CalendarDay, dates: map<string, map<string, nat>>)
    requires ColumnsSum(s, dates)
    ensures ColumnsSum(s + [m], File(dates, DayKey(dayOf, m), m.name))
  {
    var key := DayKey(dayOf, m);
    var b := Bucket(dates, key);
    var inner := Add(b, m.name, 1);
    TallySnoc(s, m, One);
    forall u ensures MapSum(Column(File(dates, key, m.name), u)) == CountOf(s + [m], u) {
      ColumnUpdate(dates, key, inner, u);
      assert Get(Column(dates, u), key) == Get(b, u);
    }
  }

  /** The three facts `MessagesPerDay` keeps about the messages filed so far. */
  ghost predicate PerDay(s: seq<Message>, dayOf: int -> CalendarDay, dates: map<string, map<string, nat>>)
  {
    DaysPresent(s, dayOf, dates) && DayCounts(s, dayOf, dates) && ColumnsSum(s, dates)
  }

  lemma PerDayStep(s: seq<Message>, m: Message, dayOf: int -> CalendarDay, dates: map<string, map<string, nat>>)
    requires PerDay(s, dayOf, dates)
    ensures PerDay(s + [m], dayOf, File(dates, DayKey(dayOf, m), m.name))
  {
    DaysPresentStep(s, m, dayOf, dates);
    DayCountsStep(s, m, dayOf, dates);
    ColumnsSumStep(s, m, dayOf, dates);
  }

  /**
   * For each local day with at least one message, the number of messages
   * each sender sent that day.
   */
  method MessagesPerDay(data: seq<Message>, dayOf: int -> CalendarDay)
    returns (dates: map<string, map<string, nat>>)
    ensures forall d :: d in dates <==> Where(data, OnDay(dayOf, d)) != []
    ensures forall d :: d in dates ==> dates[d].Keys == Senders(Where(data, OnDay(dayOf, d)))
    ensures forall d, u :: d in dates && u in dates[d] ==>
      dates[d][u] == CountOf(Where(data, OnDay(dayOf, d)), u) && dates[d][u] >= 1
    ensures forall u :: MapSum(Column(dates, u)) == CountOf(data, u)
  {
    dates := map[];
    for i := 0 to |data|
      invariant PerDay(data[..i], dayOf, dates)
    {
      var m := data[i];
      var daystring := DayString(dayOf(m.createdAt));
      PrefixStep(data, i);
      PerDayStep(data[..i], m, dayOf, dates);
      ghost var before := dates;
      if daystring !in dates {
        dates := dates[daystring := map[]];
      }
      dates := dates[daystring := Add(dates[daystring], m.name, 1)];
      FileInTwoSteps(before, daystring, m.name);
    }
    assert data[..|data|] == data;
  }

  // ---------------------------------------------------------------------------
  // hourHistogram

  /** Holds of the messages sent during local hour `h`. */
  function AtHour(hourOf: int -> Hour, h: int): Message -> bool
  {
    (m: Message) => hourOf(m.createdAt) == h
  }

  /** A fresh histogram: 24 zero counts. */
  function ZeroHours(): seq<nat>
  {
    seq(24, _ => 0)
  }

  /** `hours` after one more message of `name` sent during `hour`. */
  function Tick(hours: map<string, seq<nat>>, name: string, hour: Hour): (r: map<string, seq<nat>>)
    requires name in hours ==> |hours[name]| == 24
    ensures r.Keys == hours.Keys + {name}
    ensures forall u :: u in hours && u != name ==> r[u] == hours[u]
    ensures |r[name]| == 24
    ensures r[name][hour] == (if name in hours then hours[name][hour] else 0) + 1
    ensures forall h :: 0 <= h < 24 && h != hour ==>
      r[name][h] == if name in hours then hours[name][h] else 0
  {
    var row := if name in hours then hours[name] else ZeroHours();
    hours[name := row[hour := row[hour] + 1]]
  }

  /** Every sender of `s` has a row of 24 counts, and nobody else has one. */
  ghost predicate HourRows(s: seq<Message>, hours: map<string, seq<nat>>)
  {
    hours.Keys == Senders(s) && forall u :: u in hours ==> |hours[u]| == 24
  }

  /** Each row entry counts the row owner's messages in that hour. */
  ghost predicate HourCounts(s: seq<Message>, hourOf: int -> Hour, hours: map<string, seq<nat>>)
    requires forall u :: u in hours ==> |hours[u]| == 24
  {
    forall u, h :: u in hours && 0 <= h < 24 ==> hours[u][h] == CountOf(Where(s, AtHour(hourOf, h)), u)
  }

  /** Each row sums to the row owner's message count. */
  ghost predicate HourSums(s: seq<Message>, hours: map<string, seq<nat>>)
  {
    forall u :: u in hours ==> SeqSum(hours[u]) == CountOf(s, u)
  }

  /** How one more message changes the count of a user in an hour. */
  lemma AtHourSnoc(s: seq<Message>, m: Message, hourOf: int -> Hour, h: int, u: string)
    ensures CountOf(Where(s + [m], AtHour(hourOf, h)), u)
         == CountOf(Where(s, AtHour(hourOf, h)), u) + (if h == hourOf(m.createdAt) && u == m.name then 1 else 0)
  {
    WhereSnoc(s, m, AtHour(hourOf, h));
    var w := Where(s, AtHour(hourOf, h));
    if h == hourOf(m.createdAt) {
      TallySnoc(w, m, One);
    } else {
      assert w + [] == w;
    }
  }

  /** A user with no messages yet has a zero count in every hour. */
  lemma NewSenderHours(s: seq<Message>, hourOf: int -> Hour, u: string, h: int)
    requires u !in Senders(s)
    ensures CountOf(Where(s, AtHour(hourOf, h)), u) == 0
  {
    WhereSenders(s, AtHour(hourOf, h));
    TallyOfNonSender(Where(s, AtHour(hourOf, h)), u, One);
  }

  lemma HourRowsStep(s: seq<Message>, m: Message, hourOf: int -> Hour, hours: map<string, seq<nat>>)
    requires HourRows(s, hours)
    ensures HourRows(s + [m], Tick(hours, m.name, hourOf(m.createdAt)))
  {
    SendersSnoc(s, m);
  }

  lemma HourCountsStep(s: seq<Message>, m: Message, hourOf: int -> Hour, hours: map<string, seq<nat>>)
    requires HourRows(s, hours) && HourCounts(s, hourOf, hours)
    ensures HourRows(s + [m], Tick(hours, m.name, hourOf(m.createdAt)))
    ensures HourCounts(s + [m], hourOf, Tick(hours, m.name, hourOf(m.createdAt)))
  {
    HourRowsStep(s, m, hourOf, hours);
    var ticked := Tick(hours, m.name, hourOf(m.createdAt));
    forall u, h | u in ticked && 0 <= h < 24
      ensures ticked[u][h] == CountOf(Where(s + [m], AtHour(hourOf, h)), u)
    {
      AtHourSnoc(s, m, hourOf, h, u);
      if u == m.name && m.name !in hours {
        NewSenderHours(s, hourOf, u, h);
      }
    }
  }

  lemma HourSumsStep(s: seq<Message>, m: Message, hourOf: int -> Hour, hours: map<string, seq<nat>>)
    requires HourRows(s, hours) && HourSums(s, hours)
    ensures HourRows(s + [m], Tick(hours, m.name, hourOf(m.createdAt)))
    ensures HourSums(s + [m], Tick(hours, m.name, hourOf(m.createdAt)))
  {
    HourRowsStep(s, m, hourOf, hours);
    TallySnoc(s, m, One);
    var hour := hourOf(m.createdAt);
    var row := if m.name in hours then hours[m.name] else ZeroHours();
    if m.name !in hours {
      SeqSumZeros(24);
      TallyOfNonSender(s, m.name, One);
    }
    SeqSumUpdate(row, hour, row[hour] + 1);
  }

  /** Opening the row and then counting in it is `Tick`. */
  lemma TickInTwoSteps(hours: map<string, seq<nat>>, name: string, hour: Hour)
    requires name in hours ==> |hours[name]| == 24
    ensures var o := if name in hours then hours else hours[name := ZeroHours()];
            o[name := o[name][hour := o[name][hour] + 1]] == Tick(hours, name, hour)
  {
  }

  /** For each sender, the number of their messages in each local hour 0..23. */
  method HourHistogram(data: seq<Message>, hourOf: int -> Hour)
    returns (hours: map<string, seq<nat>>)
    ensures hours.Keys == Senders(data)
    ensures forall u :: u in hours ==> |hours[u]| == 24
    ensures forall u, h :: u in hours && 0 <= h < 24 ==>
      hours[u][h] == CountOf(Where(data, AtHour(hourOf, h)), u)
    ensures forall u :: u in hours ==> SeqSum(hours[u]) == CountOf(data, u)
  {
    hours := map[];
    for i := 0 to |data|
      invariant HourRows(data[..i], hours)
      invariant HourCounts(data[..i], hourOf, hours)
      invariant HourSums(data[..i], hours)
    {
      var m := data[i];
      var hour := hourOf(m.createdAt);
      PrefixStep(data, i);
      HourCountsStep(data[..i], m, hourOf, hours);
      HourSumsStep(data[..i], m, hourOf, hours);
      TickInTwoSteps(hours, m.name, hour);
      if m.name !in hours {
        hours := hours[m.name := ZeroHours()];
      }
      hours := hours[m.name := hours[m.name][hour := hours[m.name][hour] + 1]];
    }
    assert data[..|data|] == data;
  }
}
