/**
 * Message records of an exported conversation and the statistics over them
 * that the aggregators are specified against. Every statistic is a fold over
 * the sequence, written from its last element so that the statistic of a
 * prefix `data[..i + 1]` unfolds to that of `data[..i]` plus one message.
 */
module Messages {

  datatype Option<+T> = None | Some(value: T)

  /** A local hour of the day, 0 to 23. */
  type Hour = h: int | 0 <= h < 24

  /** A local calendar date as the date library reports it. */
  datatype CalendarDay = CalendarDay(month: nat, day: nat, year: nat)

  /**
   * One message record. `text` is `None` both when the field is absent and
   * when it is null; `attachments` is the number of attachment descriptors,
   * the only thing about them that the aggregators use.
   */
  datatype Message = Message(
    name: string,
    createdAt: int,
    text: Option<string>,
    favoritedBy: seq<string>,
    attachments: nat)

  /** What one message adds to its sender's text-length sum. */
  function TextLength(m: Message): nat
  {
    match m.text
    case None => 0
    case Some(t) => |t|
  }

  /** What one message adds to its sender's like total. */
  function Likes(m: Message): nat
  {
    |m.favoritedBy|
  }

  /** What one message adds to its sender's attachment total. */
  function Attachments(m: Message): nat
  {
    m.attachments
  }

  /** What one message adds to its sender's message count. */
  function One(m: Message): nat
  {
    1
  }

  /** The names of all senders in `s`. */
  function Senders(s: seq<Message>): set<string>
  {
    if s == [] then {} else Senders(s[..|s| - 1]) + {s[|s| - 1].name}
  }

  /** The sum of `f` over the messages of `s` sent by `u`. */
  function Tally(s: seq<Message>, u: string, f: Message -> nat): nat
  {
    if s == [] then 0
    else Tally(s[..|s| - 1], u, f) + (if s[|s| - 1].name == u then f(s[|s| - 1]) else 0)
  }

  /** The sum of `f` over all messages of `s`. */
  function Total(s: seq<Message>, f: Message -> nat): nat
  {
    if s == [] then 0 else Total(s[..|s| - 1], f) + f(s[|s| - 1])
  }

  /** The messages of `s` that satisfy `p`, in order. */
  function Where(s: seq<Message>, p: Message -> bool): seq<Message>
  {
    if s == [] then []
    else Where(s[..|s| - 1], p) + (if p(s[|s| - 1]) then [s[|s| - 1]] else [])
  }

  /** The number of messages `u` sent. */
  function CountOf(s: seq<Message>, u: string): nat
  {
    Tally(s, u, One)
  }

  /** The summed text length of `u`'s messages. */
  function TextLengthOf(s: seq<Message>, u: string): nat
  {
    Tally(s, u, TextLength)
  }

  /** The number of likes `u`'s messages received. */
  function LikesOf(s: seq<Message>, u: string): nat
  {
    Tally(s, u, Likes)
  }

  /** The number of attachments `u`'s messages carry. */
  function AttachmentsOf(s: seq<Message>, u: string): nat
  {
    Tally(s, u, Attachments)
  }

  // Appending one message: how each fold changes.

  lemma SendersSnoc(s: seq<Message>, m: Message)
    ensures Senders(s + [m]) == Senders(s) + {m.name}
  {
    assert (s + [m])[..|s|] == s;
  }

  lemma TallySnoc(s: seq<Message>, m: Message, f: Message -> nat)
    ensures forall u :: Tally(s + [m], u, f) == Tally(s, u, f) + (if m.name == u then f(m) else 0)
  {
    assert (s + [m])[..|s|] == s;
  }

  lemma TotalSnoc(s: seq<Message>, m: Message, f: Message -> nat)
    ensures Total(s + [m], f) == Total(s, f) + f(m)
  {
    assert (s + [m])[..|s|] == s;
  }

  lemma WhereSnoc(s: seq<Message>, m: Message, p: Message -> bool)
    ensures Where(s + [m], p) == Where(s, p) + (if p(m) then [m] else [])
  {
    assert (s + [m])[..|s|] == s;
  }

  /** `data[..i + 1]` is `data[..i]` followed by `data[i]`. */
  lemma PrefixStep(data: seq<Message>, i: nat)
    requires i < |data|
    ensures data[..i + 1] == data[..i] + [data[i]]
  {
  }

  /** A name is a sender exactly when it has at least one message. */
  lemma {:induction false} SenderIffHasMessage(s: seq<Message>, u: string)
    ensures u in Senders(s) <==> CountOf(s, u) >= 1
  {
    if s != [] {
      var p, m := s[..|s| - 1], s[|s| - 1];
      assert s == p + [m];
      SenderIffHasMessage(p, u);
      SendersSnoc(p, m);
      TallySnoc(p, m, One);
    }
  }

  /** A name that sent nothing in `s` has a zero tally there. */
  lemma {:induction false} TallyOfNonSender(s: seq<Message>, u: string, f: Message -> nat)
    requires u !in Senders(s)
    ensures Tally(s, u, f) == 0
  {
    if s != [] {
      var p, m := s[..|s| - 1], s[|s| - 1];
      assert s == p + [m];
      SendersSnoc(p, m);
      TallyOfNonSender(p, u, f);
    }
  }

  /**
   * A message without text adds nothing to its sender's length sum, and one
   * to their message count.
   */
  lemma TextlessMessage(s: seq<Message>, m: Message)
    requires m.text == None
    ensures TextLengthOf(s + [m], m.name) == TextLengthOf(s, m.name)
    ensures CountOf(s + [m], m.name) == CountOf(s, m.name) + 1
  {
    TallySnoc(s, m, TextLength);
    TallySnoc(s, m, One);
  }
}
