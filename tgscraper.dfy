/**
 * The scraper: parses channel messages into statuses, backfills a window of history into
 * the store oldest-first, then follows the live feed, forwarding parsed statuses to an
 * optional outbound feed. The two tasks run one after the other here (see README).
 */
module Scraper {
  import opened Wrappers
  import opened Clock
  import opened StatusLine
  import opened AlertStore
  import Region

  /** The content of a channel message: text, or anything else (photo, poll, ...). */
  datatype Content = Text(text: string) | NonText

  /** A channel message: its ID, delivery time, whether it was forwarded, and its content. */
  datatype Message = Message(id: int, date: DateTime, forwarded: bool, content: Content)

  /** One answer of the chat-history request: a page of messages, or the client's error. */
  datatype Page = Page(messages: seq<Message>) | PageError(message: string)

  /** One event of the live feed: nil, a new message, or an event of any other type. */
  datatype Update = Nil | NewMessage(message: Message) | Other

  /**
   * The chat client as a script: the answers to successive history requests, newest page
   * first, and the live events in delivery order.
   */
  datatype Client = Client(history: seq<Page>, updates: seq<Update>)

  /** What a run of one task did: the store afterwards, the statuses sent on the feed, the error. */
  datatype Outcome = Outcome(data: Table, sent: seq<Status>, err: Error)

  /** What one live event does to the loop: go on, with the status it carries if any, or stop. */
  datatype Step = Continue(status: Option<Status>) | Stop(err: Error)

  /** The store after a history replay, and the error that stopped it, if any. */
  datatype Replay = Replay(data: Table, err: Option<Error>)

  // ---------------------------------------------------------------------------------------
  // parseMessage

  /**
   * The status of a matched line once its region is resolved by name: none, and no error, for
   * a name not in the registry.
   */
  function Resolve(name: string, enabled: bool, updatedAt: DateTime): (r: Result<Option<Status>>)
    ensures r.err.None?
    ensures r.value.Some? <==> name in Region.NamesById.Values
    ensures r.value.Some? ==> var s := r.value.value;
      && Region.IsRegistered(s.region) && s.region in Region.NamesById && Region.NamesById[s.region] == name
      && s.enabled == enabled && s.updatedAt == updatedAt && !s.isHistory
  {
    var id := Region.Parse(name);
    if !id.Ok() then Result(None, None)
    else
      Region.IsRegisteredInTable(id.value);
      Result(Some(Status(id.value, enabled, updatedAt, false)), None)
  }

  /**
   * `parseMessage` as written: the status a message announces; no status and no error for a
   * message that is not text, does not match, or names an unknown region; an error for a clock
   * reading that is no time of day. The time is the delivery date at the announced hour and
   * minute: the one-day rollback the source computes is discarded (see `ParseMessage`).
   */
  function ParseMessageAsWritten(m: Message): (r: Result<Option<Status>>)
    ensures !m.content.Text? ==> r == Result(None, None)
    ensures r.err.Some? ==> r.value.None? && r.err.value.BadTimeOfDay?
    ensures r.value.Some? ==> var s := r.value.value;
      && Region.IsRegistered(s.region)
      && !s.isHistory
      && SameDate(s.updatedAt, m.date)
      && 0 <= s.updatedAt.hour <= 23 && 0 <= s.updatedAt.minute <= 59 && s.updatedAt.second == 0
    ensures m.content.Text? && FindMatch(m.content.text).None? ==> r == Result(None, None)
    ensures m.content.Text? && FindMatch(m.content.text).Some? ==>
      var f := FindMatch(m.content.text).value; var t := ParseClock(f.clock);
      && (r.err.Some? <==> !t.Ok())
      && (r.err.Some? ==> r.err == t.err)
      && (r.value.Some? <==> t.Ok() && f.name in Region.NamesById.Values)
      && (r.value.Some? ==> var s := r.value.value;
            && s.region in Region.NamesById && Region.NamesById[s.region] == f.name
            && s.enabled == (f.phrase == Raised)
            && s.updatedAt == DateTime(m.date.year, m.date.month, m.date.day, t.value.hour, t.value.minute, 0))
  {
    match m.content
    case NonText => Result(None, None)
    case Text(text) =>
      match FindMatch(text)
      case None => Result(None, None)
      case Some(found) =>
        var t := ParseClock(found.clock);
        if !t.Ok() then Result(None, t.err)
        else
          var updatedAt := DateTime(m.date.year, m.date.month, m.date.day, t.value.hour, t.value.minute, 0);
          if found.phrase == Cleared then Resolve(found.name, false, updatedAt)
          else if found.phrase == Raised then Resolve(found.name, true, updatedAt)
          else Result(None, None)
  }

  /**
   * `parseMessage` with its midnight rollback applied: a status whose time of day is later than
   * the delivery is dated the day before, so no status is ever dated after its own delivery.
   */
  function ParseMessage(m: Message): (r: Result<Option<Status>>)
    ensures !m.content.Text? ==> r == Result(None, None)
    ensures r.err.Some? ==> r.value.None? && r.err.value.BadTimeOfDay?
    ensures r.value.Some? ==> var s := r.value.value;
      && Region.IsRegistered(s.region)
      && !s.isHistory
      && !Before(m.date, s.updatedAt)
      && (SameDate(s.updatedAt, m.date) || SameDate(s.updatedAt, DayBefore(m.date)))
      && 0 <= s.updatedAt.hour <= 23 && 0 <= s.updatedAt.minute <= 59 && s.updatedAt.second == 0
    ensures m.content.Text? && FindMatch(m.content.text).None? ==> r == Result(None, None)
    ensures m.content.Text? && FindMatch(m.content.text).Some? ==>
      var f := FindMatch(m.content.text).value; var t := ParseClock(f.clock);
      && (r.err.Some? <==> !t.Ok())
      && (r.err.Some? ==> r.err == t.err)
      && (r.value.Some? <==> t.Ok() && f.name in Region.NamesById.Values)
      && (r.value.Some? ==> var s := r.value.value;
            && s.region in Region.NamesById && Region.NamesById[s.region] == f.name
            && s.enabled == (f.phrase == Raised)
            && s.updatedAt.hour == t.value.hour && s.updatedAt.minute == t.value.minute)
  {
    var r := ParseMessageAsWritten(m);
    if r.value.Some? && Before(m.date, r.value.value.updatedAt) then
      var s := r.value.value;
      BeforeIsStrictTotalOrder(DayBefore(s.updatedAt), m.date, s.updatedAt);
      Result(Some(s.(updatedAt := DayBefore(s.updatedAt))), None)
    else r
  }

  /**
   * The rollback changes nothing but the date, and only that of a status the source would date
   * after its delivery; errors and non-matches are the same.
   */
  lemma ParseMessageRollsBack(m: Message)
    ensures ParseMessage(m).err == ParseMessageAsWritten(m).err
    ensures ParseMessage(m).value.Some? <==> ParseMessageAsWritten(m).value.Some?
    ensures ParseMessage(m).value.Some? ==> var s, w := ParseMessage(m).value.value, ParseMessageAsWritten(m).value.value;
      && s.region == w.region && s.enabled == w.enabled && s.isHistory == w.isHistory
      && (if Before(m.date, w.updatedAt) then s.updatedAt == DayBefore(w.updatedAt) else s == w)
  {
  }

  /** A region name as a status line can carry it: one line, not ending in a dot. */
  predicate IsLineName(name: string) {
    '\n' !in name && (name == [] || name[|name| - 1] != '.')
  }

  /** A text message whose first line is a status line is parsed from that line alone. */
  lemma ParseMessageOfStatusLine(m: Message, marker: char, hour: int, minute: int, phrase: string, name: string, dot: bool, rest: string)
    requires IsMarker(marker) && 0 <= hour <= 23 && 0 <= minute <= 59
    requires phrase == Raised || phrase == Cleared
    requires IsLineName(name)
    requires m.content == Text(Render(marker, ClockText(hour, minute), phrase, name, dot) + "\n" + rest)
    ensures ParseMessageAsWritten(m) == Resolve(name, phrase == Raised, DateTime(m.date.year, m.date.month, m.date.day, hour, minute, 0))
    ensures !Before(m.date, DateTime(m.date.year, m.date.month, m.date.day, hour, minute, 0)) ==> ParseMessage(m) == ParseMessageAsWritten(m)
  {
    StatusLineFound(marker, hour, minute, phrase, name, dot, rest);
    ParseClockOfClockText(hour, minute);
  }

  /** A clock reading that is no time of day is an error, whatever the rest of the line says. */
  lemma ParseMessageRejectsBadClock(m: Message, marker: char, hour: int, minute: int, phrase: string, name: string, dot: bool, rest: string)
    requires IsMarker(marker) && 0 <= hour <= 99 && 0 <= minute <= 99 && (hour > 23 || minute > 59)
    requires phrase == Raised || phrase == Cleared
    requires IsLineName(name)
    requires m.content == Text(Render(marker, ClockText(hour, minute), phrase, name, dot) + "\n" + rest)
    ensures ParseMessageAsWritten(m) == Result(None, Some(BadTimeOfDay(ClockText(hour, minute) + ":00")))
    ensures ParseMessage(m) == ParseMessageAsWritten(m)
  {
    StatusLineFound(marker, hour, minute, phrase, name, dot, rest);
    ParseClockOfClockText(hour, minute);
  }

  lemma StatusLineFound(marker: char, hour: int, minute: int, phrase: string, name: string, dot: bool, rest: string)
    requires IsMarker(marker) && 0 <= hour <= 99 && 0 <= minute <= 99
    requires phrase == Raised || phrase == Cleared
    requires IsLineName(name)
    ensures FindMatch(Render(marker, ClockText(hour, minute), phrase, name, dot) + "\n" + rest)
         == Some(Match(ClockText(hour, minute), phrase, name))
  {
    var clock := ClockText(hour, minute);
    ParseClockOfClockText(hour, minute);
    MatchLineOfRender(marker, clock, phrase, name, dot);
    var line := Render(marker, clock, phrase, name, dot);
    RenderIsOneLine(marker, clock, phrase, name, dot);
    FindMatchOfFirstLine(line, rest);
  }

  /** A message delivered at 00:01 that announces an alert of 23:59 on the day before. */
  const LateNightAlert := Message(0, DateTime(2024, 8, 22, 0, 1, 0), false, Text(Render('\U{1F534}', "23:59", Raised, "м. Київ", false) + "\n"))

  /** As written, the status of `LateNightAlert` is dated later than its own delivery. */
  lemma ParseMessageAsWrittenIsLate()
    ensures ParseMessageAsWritten(LateNightAlert) == Result(Some(Status(Region.KyivCity, true, DateTime(2024, 8, 22, 23, 59, 0), false)), None)
    ensures Before(LateNightAlert.date, DateTime(2024, 8, 22, 23, 59, 0))
  {
    assert ClockText(23, 59) == "23:59";
    KyivCityByName();
    ParseMessageOfStatusLine(LateNightAlert, '\U{1F534}', 23, 59, Raised, "м. Київ", false, "");
  }

  /** With the rollback, the same status is dated 23:59 on the day before the delivery. */
  lemma ParseMessageOfLateNightAlert()
    ensures ParseMessage(LateNightAlert) == Result(Some(Status(Region.KyivCity, true, DateTime(2024, 8, 21, 23, 59, 0), false)), None)
  {
    ParseMessageAsWrittenIsLate();
  }

  /** "м. Київ" is the name of the capital, and a name a status line can carry. */
  lemma KyivCityByName()
    ensures Region.Parse("м. Київ") == Result(Region.KyivCity, None)
    ensures IsLineName("м. Київ")
  {
    Region.ParseOfString(Region.KyivCity);
  }

  // ---------------------------------------------------------------------------------------
  // getMessagesForPeriod

  /** The answer to the `call`-th history request; past the end of the script, an empty page. */
  function Fetch(history: seq<Page>, call: nat): Page {
    if call < |history| then history[call] else Page([])
  }

  /** A message the backfill keeps: not forwarded, and text. */
  predicate Keep(m: Message) {
    !m.forwarded && m.content.Text?
  }

  /** A page that ends the backfill without error: empty, or holding a message older than `from`. */
  predicate Stops(p: Page, from: DateTime) {
    p.Page? && (p.messages == [] || Before(p.messages[0].date, from))
  }

  /**
   * What `getMessagesForPeriod` returns from the `call`-th request on: the kept messages, newest
   * first, up to the first page that is empty or older than `from`; or the first transport error.
   */
  function Backfill(history: seq<Page>, from: DateTime, call: nat): (r: Result<seq<Message>>)
    ensures r.Ok() ==> forall m | m in r.value :: Keep(m) && !Before(m.date, from)
    ensures !r.Ok() ==> r.value == [] && r.err.value.Transport?
    decreases |history| - call
  {
    match Fetch(history, call)
    case PageError(message) => Result([], Some(Transport(message)))
    case Page(messages) =>
      if messages == [] || Before(messages[0].date, from) then Result([], None)
      else
        var later := Backfill(history, from, call + 1);
        if !later.Ok() then later
        else Result((if Keep(messages[0]) then [messages[0]] else []) + later.value, None)
  }

  /** A backfill result with `kept` in front of it. */
  function Prefixed(kept: seq<Message>, r: Result<seq<Message>>): Result<seq<Message>> {
    if r.Ok() then Result(kept + r.value, None) else r
  }

  /**
   * The `FromMessageId` of each history request: 0 for the first, then the ID of the message the
   * previous request returned.
   */
  predicate RequestCursors(history: seq<Page>, cursors: seq<int>) {
    && |cursors| >= 1 && cursors[0] == 0
    && forall k: nat | k < |cursors| - 1 ::
         Fetch(history, k).Page? && Fetch(history, k).messages != []
         && cursors[k + 1] == Fetch(history, k).messages[0].id
  }

  /** A request that got a message adds that message's ID as the next cursor. */
  lemma RequestCursorsExtend(history: seq<Page>, cursors: seq<int>, page: Page)
    requires RequestCursors(history, cursors)
    requires Fetch(history, |cursors| - 1) == page && page.Page? && page.messages != []
    ensures RequestCursors(history, cursors + [page.messages[0].id])
  {
    var next := cursors + [page.messages[0].id];
    forall k: nat | k < |next| - 1
      ensures Fetch(history, k).Page? && Fetch(history, k).messages != []
      ensures next[k + 1] == Fetch(history, k).messages[0].id
    {
      if k < |cursors| - 1 {
        assert next[k + 1] == cursors[k + 1];
      } else {
        assert next[k + 1] == page.messages[0].id;
      }
    }
    assert next[0] == cursors[0];
  }

  lemma PrefixedTwice(a: seq<Message>, b: seq<Message>, r: Result<seq<Message>>)
    ensures Prefixed(a, Prefixed(b, r)) == Prefixed(a + b, r)
  {
    if r.Ok() {
      assert a + (b + r.value) == (a + b) + r.value;
    }
  }

  /** Pages after one that stops the backfill are never requested, so they cannot change it. */
  lemma {:induction false} BackfillIgnoresLaterPages(history: seq<Page>, extra: seq<Page>, from: DateTime, call: nat)
    requires call < |history| && Stops(history[|history| - 1], from)
    ensures Backfill(history + extra, from, call) == Backfill(history, from, call)
    decreases |history| - call
  {
    assert Fetch(history + extra, call) == Fetch(history, call);
    if call < |history| - 1 {
      BackfillIgnoresLaterPages(history, extra, from, call + 1);
    }
  }

  /**
   * Every kept message at the head of a page before the stopping one is returned, one dated
   * exactly at the horizon included.
   */
  lemma {:induction false} BackfillKeepsWindow(history: seq<Page>, from: DateTime, call: nat, k: nat)
    requires call <= k && Backfill(history, from, call).Ok()
    requires forall j | call <= j <= k :: HasHead(history, j) && !Before(history[j].messages[0].date, from)
    requires HasHead(history, k) && Keep(history[k].messages[0])
    ensures history[k].messages[0] in Backfill(history, from, call).value
    decreases k - call
  {
    assert HasHead(history, call);
    if call < k {
      BackfillKeepsWindow(history, from, call + 1, k);
    }
  }

  /** Whether the `k`-th scripted answer is a page holding a message. */
  predicate HasHead(history: seq<Page>, k: nat) {
    k < |history| && history[k].Page? && history[k].messages != []
  }

  /** The dates of the page heads never increase: the channel answers newest first. */
  predicate NewestFirstPages(history: seq<Page>) {
    forall i: nat, j: nat | i < j < |history| && HasHead(history, i) && HasHead(history, j) ::
      !Before(history[i].messages[0].date, history[j].messages[0].date)
  }

  /** Messages in non-increasing date order. */
  predicate NewestFirst(ms: seq<Message>) {
    forall i, j | 0 <= i < j < |ms| :: !Before(ms[i].date, ms[j].date)
  }

  /** On a channel that answers newest first, no backfilled message is newer than an earlier page. */
  lemma {:induction false} BackfillBelowEarlierHeads(history: seq<Page>, from: DateTime, call: nat)
    requires NewestFirstPages(history)
    ensures forall k: nat, m | k < call && HasHead(history, k) && m in Backfill(history, from, call).value ::
      !Before(history[k].messages[0].date, m.date)
    decreases |history| - call
  {
    var r := Backfill(history, from, call);
    if HasHead(history, call) && !Before(history[call].messages[0].date, from) {
      BackfillBelowEarlierHeads(history, from, call + 1);
      var later := Backfill(history, from, call + 1);
      forall k: nat, m | k < call && HasHead(history, k) && m in r.value
        ensures !Before(history[k].messages[0].date, m.date)
      {
        if m !in later.value {
          assert m == history[call].messages[0];
        }
      }
    }
  }

  /** On a channel that answers newest first, the backfill is newest first. */
  lemma {:induction false} BackfillNewestFirst(history: seq<Page>, from: DateTime, call: nat)
    requires NewestFirstPages(history)
    ensures NewestFirst(Backfill(history, from, call).value)
    decreases |history| - call
  {
    var r := Backfill(history, from, call);
    if HasHead(history, call) && !Before(history[call].messages[0].date, from) {
      var later := Backfill(history, from, call + 1);
      BackfillNewestFirst(history, from, call + 1);
      BackfillBelowEarlierHeads(history, from, call + 1);
      if later.Ok() {
        var head := history[call].messages[0];
        var kept := if Keep(head) then [head] else [];
        assert r.value == kept + later.value;
        forall i, j | 0 <= i < j < |r.value| ensures !Before(r.value[i].date, r.value[j].date) {
          if i < |kept| {
            assert r.value[j] in later.value;
          } else {
            assert r.value[i] == later.value[i - |kept|] && r.value[j] == later.value[j - |kept|];
          }
        }
      }
    }
  }

  // ---------------------------------------------------------------------------------------
  // slices.Reverse

  /** A sequence back to front. */
  function Reversed<T>(s: seq<T>): (r: seq<T>)
    ensures |r| == |s|
    ensures forall i | 0 <= i < |s| :: r[i] == s[|s| - 1 - i]
    decreases |s|
  {
    if s == [] then [] else Reversed(s[1..]) + [s[0]]
  }

  /** Reversing twice gives the sequence back. */
  lemma ReversedTwice<T>(s: seq<T>)
    ensures Reversed(Reversed(s)) == s
  {
  }

  /** Reversing keeps the elements, with their multiplicities. */
  lemma {:induction false} ReversedIsPermutation<T>(s: seq<T>)
    ensures multiset(Reversed(s)) == multiset(s)
    decreases |s|
  {
    if s != [] {
      ReversedIsPermutation(s[1..]);
      assert s == [s[0]] + s[1..];
    }
  }

  /** A newest-first sequence reversed is oldest first. */
  lemma ReversedIsOldestFirst(ms: seq<Message>)
    requires NewestFirst(ms)
    ensures forall i, j | 0 <= i < j < |ms| :: !Before(Reversed(ms)[j].date, Reversed(ms)[i].date)
  {
  }

  /** `slices.Reverse`: reverses the array in place. */
  method ReverseInPlace<T>(a: array<T>)
    modifies a
    ensures a[..] == Reversed(old(a[..]))
  {
    var i, j := 0, a.Length - 1;
    while i < j
      invariant 0 <= i <= a.Length && j == a.Length - 1 - i && i <= j + 1
      invariant forall k | 0 <= k < i || j < k < a.Length :: a[k] == old(a[a.Length - 1 - k])
      invariant forall k | i <= k <= j :: a[k] == old(a[k])
    {
      a[i], a[j] := a[j], a[i];
      i, j := i + 1, j - 1;
    }
  }

  // ---------------------------------------------------------------------------------------
  // history

  /**
   * The replay loop of `history` over `batch` (oldest first): each parsed status is marked as
   * history and merged into the store; the first parse error stops it, wrapped.
   */
  function ApplyHistory(data: Table, batch: seq<Message>): (r: Replay)
    ensures r.data.Keys >= data.Keys
    ensures r.err.Some? ==> r.err.value.Wrapped? && r.err.value.prefix == "unable to scrape history" && r.err.value.inner.BadTimeOfDay?
    decreases |batch|
  {
    if batch == [] then Replay(data, None)
    else
      var p := ParseMessageAsWritten(batch[0]);
      if !p.Ok() then Replay(data, Some(Wrapped("unable to scrape history", p.err.value)))
      else if p.value.None? then ApplyHistory(data, batch[1..])
      else ApplyHistory(Merge(data, p.value.value.(isHistory := true)), batch[1..])
  }

  /** The statuses a replay of `batch` merges, in order, up to the first parse error. */
  function HistoryStatuses(batch: seq<Message>): (ss: seq<Status>)
    ensures forall s | s in ss :: s.isHistory && Region.IsRegistered(s.region)
    decreases |batch|
  {
    if batch == [] then []
    else
      var p := ParseMessageAsWritten(batch[0]);
      if !p.Ok() then []
      else if p.value.None? then HistoryStatuses(batch[1..])
      else [p.value.value.(isHistory := true)] + HistoryStatuses(batch[1..])
  }

  /** The replay merges exactly its history statuses, so it keeps the latest of each region. */
  lemma {:induction false} ApplyHistoryIsMergeAll(data: Table, batch: seq<Message>)
    ensures ApplyHistory(data, batch).data == MergeAll(data, HistoryStatuses(batch))
    decreases |batch|
  {
    if batch != [] {
      var p := ParseMessageAsWritten(batch[0]);
      if p.Ok() && p.value.None? {
        ApplyHistoryIsMergeAll(data, batch[1..]);
      } else if p.Ok() {
        var s := p.value.value.(isHistory := true);
        ApplyHistoryIsMergeAll(Merge(data, s), batch[1..]);
        assert ([s] + HistoryStatuses(batch[1..]))[1..] == HistoryStatuses(batch[1..]);
      }
    }
  }

  /** Whether every message of a batch parses without error. */
  predicate Parses(batch: seq<Message>) {
    forall i | 0 <= i < |batch| :: ParseMessageAsWritten(batch[i]).Ok()
  }

  lemma ConcatAssociates<T>(a: seq<T>, b: seq<T>, c: seq<T>)
    ensures a + (b + c) == (a + b) + c
  {
  }

  lemma ConcatEmpty<T>(a: seq<T>)
    ensures a + [] == a
  {
  }

  /** The statuses a message that parses contributes to a replay. */
  function HistoryHead(m: Message): seq<Status>
    requires ParseMessageAsWritten(m).Ok()
  {
    var p := ParseMessageAsWritten(m);
    if p.value.None? then [] else [p.value.value.(isHistory := true)]
  }

  lemma HistoryStatusesCons(batch: seq<Message>)
    requires batch != [] && ParseMessageAsWritten(batch[0]).Ok()
    ensures HistoryStatuses(batch) == HistoryHead(batch[0]) + HistoryStatuses(batch[1..])
  {
  }

  lemma {:induction false} HistoryStatusesOfConcat(a: seq<Message>, b: seq<Message>)
    requires Parses(a)
    ensures HistoryStatuses(a + b) == HistoryStatuses(a) + HistoryStatuses(b)
    decreases |a|
  {
    if a != [] {
      var rest := a[1..];
      assert ParseMessageAsWritten(a[0]).Ok();
      assert Parses(rest) by {
        forall i | 0 <= i < |rest|
          ensures ParseMessageAsWritten(rest[i]).Ok()
        {
          assert rest[i] == a[i + 1];
        }
      }
      assert (a + b)[0] == a[0] && (a + b)[1..] == rest + b;
      HistoryStatusesCons(a + b);
      HistoryStatusesCons(a);
      HistoryStatusesOfConcat(rest, b);
      ConcatAssociates(HistoryHead(a[0]), HistoryStatuses(rest), HistoryStatuses(b));
    } else {
      assert a + b == b;
    }
  }

  lemma {:induction false} HistoryStatusesOfReversed(batch: seq<Message>)
    requires Parses(batch)
    ensures multiset(HistoryStatuses(Reversed(batch))) == multiset(HistoryStatuses(batch))
    decreases |batch|
  {
    if batch != [] {
      var rest := batch[1..];
      ParsesOfTail(batch);
      HistoryStatusesOfReversed(rest);
      ParsesOfReversed(rest);
      assert Reversed(batch) == Reversed(rest) + [batch[0]];
      HistoryStatusesOfConcat(Reversed(rest), [batch[0]]);
      assert batch == [batch[0]] + rest;
      HistoryStatusesOfConcat([batch[0]], rest);
      var head, tail := HistoryStatuses([batch[0]]), HistoryStatuses(rest);
      assert multiset(tail + head) == multiset(head + tail);
    }
  }

  lemma ParsesOfTail(batch: seq<Message>)
    requires batch != [] && Parses(batch)
    ensures Parses(batch[1..])
  {
    forall i | 0 <= i < |batch| - 1
      ensures ParseMessageAsWritten(batch[1..][i]).Ok()
    {
      assert batch[1..][i] == batch[i + 1];
    }
  }

  lemma ParsesOfReversed(batch: seq<Message>)
    requires Parses(batch)
    ensures Parses(Reversed(batch))
  {
    var r := Reversed(batch);
    forall i | 0 <= i < |r|
      ensures ParseMessageAsWritten(r[i]).Ok()
    {
      assert r[i] == batch[|batch| - 1 - i];
    }
  }

  /**
   * Replaying a batch that parses throughout newest first instead of oldest first leaves every
   * region with the same time: the reversal only decides between statuses of equal time.
   */
  lemma ReplayOrderOnlyBreaksTies(data: Table, batch: seq<Message>, id: Region.ID)
    requires Parses(batch) && id in data
    ensures ApplyHistory(data, Reversed(batch)).data[id].updatedAt == ApplyHistory(data, batch).data[id].updatedAt
  {
    ApplyHistoryIsMergeAll(data, batch);
    ApplyHistoryIsMergeAll(data, Reversed(batch));
    HistoryStatusesOfReversed(batch);
    MergeAllIgnoresOrder(data, HistoryStatuses(Reversed(batch)), HistoryStatuses(batch), id);
  }

  /** Every entry the replay changes is marked as history. */
  lemma {:induction false} ApplyHistoryMarksHistory(data: Table, batch: seq<Message>, id: Region.ID)
    requires id in ApplyHistory(data, batch).data
    ensures var r := ApplyHistory(data, batch).data;
      (id in data && r[id] == data[id]) || r[id].isHistory
    decreases |batch|
  {
    if batch != [] {
      var p := ParseMessageAsWritten(batch[0]);
      if p.Ok() && p.value.None? {
        ApplyHistoryMarksHistory(data, batch[1..], id);
      } else if p.Ok() {
        var s := p.value.value.(isHistory := true);
        ApplyHistoryMarksHistory(Merge(data, s), batch[1..], id);
      }
    }
  }

  /** The replay fails exactly when some message of the batch fails to parse. */
  lemma {:induction false} ApplyHistoryFailsIffBadMessage(data: Table, batch: seq<Message>)
    ensures ApplyHistory(data, batch).err.None? <==> Parses(batch)
    decreases |batch|
  {
    if batch != [] {
      var p := ParseMessageAsWritten(batch[0]);
      if p.Ok() {
        var next := if p.value.None? then data else Merge(data, p.value.value.(isHistory := true));
        ApplyHistoryFailsIffBadMessage(next, batch[1..]);
        if Parses(batch[1..]) {
          forall i | 0 <= i < |batch| ensures ParseMessageAsWritten(batch[i]).Ok() {
            if i > 0 {
              assert batch[i] == batch[1..][i - 1];
            }
          }
        }
        if Parses(batch) {
          forall i | 0 <= i < |batch[1..]| ensures ParseMessageAsWritten(batch[1..][i]).Ok() {
            assert batch[1..][i] == batch[i + 1];
          }
        }
      }
    }
  }

  /**
   * The first message that fails to parse stops the replay: the store is what the messages
   * before it made of it, and the error is that message's, wrapped.
   */
  lemma {:induction false} ApplyHistoryStopsAtFirstError(data: Table, batch: seq<Message>, k: nat)
    requires k < |batch| && Parses(batch[..k]) && !ParseMessageAsWritten(batch[k]).Ok()
    ensures ApplyHistory(data, batch)
         == Replay(ApplyHistory(data, batch[..k]).data, Some(Wrapped("unable to scrape history", ParseMessageAsWritten(batch[k]).err.value)))
    decreases k
  {
    if k == 0 {
      assert batch[..0] == [];
    } else {
      assert batch[..k][0] == batch[0];
      var p := ParseMessageAsWritten(batch[0]);
      assert p.Ok();
      var next := if p.value.None? then data else Merge(data, p.value.value.(isHistory := true));
      var rest := batch[1..];
      var before := rest[..k - 1];
      assert before == batch[..k][1..];
      assert Parses(before) by {
        forall i | 0 <= i < k - 1 ensures ParseMessageAsWritten(before[i]).Ok() {
          assert before[i] == batch[..k][i + 1];
        }
      }
      assert rest[k - 1] == batch[k];
      ApplyHistoryStopsAtFirstError(next, rest, k - 1);
    }
  }

  /** What `history` does to a store: backfill, reverse to oldest first, replay. */
  function HistoryReplay(data: Table, history: seq<Page>, from: DateTime): (r: Replay)
    ensures r.err.Some? ==> r.err.value.Transport? || r.err.value.Wrapped?
  {
    var b := Backfill(history, from, 0);
    if !b.Ok() then Replay(data, b.err) else ApplyHistory(data, Reversed(b.value))
  }

  // ---------------------------------------------------------------------------------------
  // listenUpdates

  /**
   * What the loop of `listenUpdates` makes of one event: a nil event stops it with an error, an
   * event of another type is skipped, a message is parsed, and a parse error stops the loop.
   */
  function Receive(update: Update): (r: Step)
    ensures r.Stop? ==> (r.err == NilUpdate
         || (r.err.Wrapped? && r.err.prefix == "unable to scrape update" && r.err.inner.BadTimeOfDay?))
    ensures r.Continue? && r.status.Some? ==> !r.status.value.isHistory && Region.IsRegistered(r.status.value.region)
    ensures update.Other? ==> r == Continue(None)
    ensures update.Nil? ==> r == Stop(NilUpdate)
    ensures update.NewMessage? ==> var p := ParseMessageAsWritten(update.message);
      && (r.Stop? <==> !p.Ok())
      && (r.Stop? ==> r.err == Wrapped("unable to scrape update", p.err.value))
      && (r.Continue? ==> r.status == p.value)
  {
    match update
    case Nil => Stop(NilUpdate)
    case Other => Continue(None)
    case NewMessage(m) =>
      var p := ParseMessageAsWritten(m);
      if !p.Ok() then Stop(Wrapped("unable to scrape update", p.err.value)) else Continue(p.value)
  }

  /**
   * The loop of `listenUpdates` over the live events, the end of which stands for the
   * cancellation of the context: each status received is merged and, when a feed exists, sent.
   */
  function Listen(data: Table, feed: bool, events: seq<Update>): (o: Outcome)
    ensures o.err == Canceled || o.err == NilUpdate
         || (o.err.Wrapped? && o.err.prefix == "unable to scrape update" && o.err.inner.BadTimeOfDay?)
    ensures !feed ==> o.sent == []
    ensures forall s | s in o.sent :: !s.isHistory && Region.IsRegistered(s.region)
    decreases |events|
  {
    if events == [] then Outcome(data, [], Canceled)
    else
      match Receive(events[0])
      case Stop(err) => Outcome(data, [], err)
      case Continue(None) => Listen(data, feed, events[1..])
      case Continue(Some(s)) =>
        var rest := Listen(Merge(data, s), feed, events[1..]);
        Outcome(rest.data, (if feed then [s] else []) + rest.sent, rest.err)
  }

  /** One turn of the loop, from the `i`-th event on. */
  lemma ListenStep(data: Table, feed: bool, events: seq<Update>, i: nat)
    requires i < |events|
    ensures var r := Receive(events[i]);
      var received := r.Continue? && r.status.Some?;
      var next := Listen(if received then Merge(data, r.status.value) else data, feed, events[i + 1..]);
      Listen(data, feed, events[i..])
        == if r.Stop? then Outcome(data, [], r.err)
           else Outcome(next.data, (if feed && received then [r.status.value] else []) + next.sent, next.err)
  {
    assert events[i..][0] == events[i] && events[i..][1..] == events[i + 1..];
  }

  /** The statuses received from the live events, in order, up to the event that ends the loop. */
  function LiveStatuses(events: seq<Update>): (ss: seq<Status>)
    ensures forall s | s in ss :: !s.isHistory && Region.IsRegistered(s.region)
    decreases |events|
  {
    if events == [] then []
    else
      match Receive(events[0])
      case Stop(_) => []
      case Continue(None) => LiveStatuses(events[1..])
      case Continue(Some(s)) => [s] + LiveStatuses(events[1..])
  }

  /**
   * The loop merges every live status, and with a feed sends every one of them, in order,
   * whether or not the store kept it.
   */
  lemma {:induction false} ListenIsMergeAll(data: Table, feed: bool, events: seq<Update>)
    ensures Listen(data, feed, events).data == MergeAll(data, LiveStatuses(events))
    ensures feed ==> Listen(data, feed, events).sent == LiveStatuses(events)
    decreases |events|
  {
    if events != [] {
      match Receive(events[0])
      case Stop(_) =>
      case Continue(None) => ListenIsMergeAll(data, feed, events[1..]);
      case Continue(Some(s)) =>
        ListenIsMergeAll(Merge(data, s), feed, events[1..]);
        assert ([s] + LiveStatuses(events[1..]))[1..] == LiveStatuses(events[1..]);
    }
  }

  /** Whether no event of `events` stops the loop. */
  predicate Continues(events: seq<Update>) {
    forall j | 0 <= j < |events| :: Receive(events[j]).Continue?
  }

  lemma ContinuesOfTail(events: seq<Update>)
    requires events != [] && Receive(events[0]).Continue?
    ensures Continues(events) <==> Continues(events[1..])
  {
    if Continues(events[1..]) {
      forall j | 0 < j < |events|
        ensures Receive(events[j]).Continue?
      {
        assert events[j] == events[1..][j - 1];
      }
    }
  }

  /** The loop ends canceled exactly when no event stops it: only the end of the events cancels it. */
  lemma {:induction false} ListenEndsCanceled(data: Table, feed: bool, events: seq<Update>)
    ensures Listen(data, feed, events).err == Canceled <==> Continues(events)
    decreases |events|
  {
    if events != [] {
      var r := Receive(events[0]);
      if r.Continue? {
        ContinuesOfTail(events);
        ListenEndsCanceled(if r.status.Some? then Merge(data, r.status.value) else data, feed, events[1..]);
      }
    }
  }

  /**
   * The first event that stops the loop gives its error; the store then holds the live statuses
   * before it, and nothing after it is received.
   */
  lemma {:induction false} ListenStopsAtFirstStop(data: Table, feed: bool, events: seq<Update>, k: nat)
    requires k < |events| && Continues(events[..k]) && Receive(events[k]).Stop?
    ensures Listen(data, feed, events).err == Receive(events[k]).err
    ensures LiveStatuses(events) == LiveStatuses(events[..k])
    ensures Listen(data, feed, events).data == MergeAll(data, LiveStatuses(events[..k]))
    decreases k
  {
    if k == 0 {
      assert events[..0] == [];
    } else {
      var before := events[..k];
      assert before[0] == events[0];
      var r := Receive(events[0]);
      var tail := events[1..];
      assert before[1..] == tail[..k - 1];
      ContinuesOfTail(before);
      assert tail[k - 1] == events[k];
      ListenStopsAtFirstStop(if r.status.Some? then Merge(data, r.status.value) else data, feed, tail, k - 1);
    }
    ListenIsMergeAll(data, feed, events);
  }

  /**
   * A live status older than the stored one leaves the store as it is and is sent all the same:
   * the loop does not check whether `set` kept it.
   */
  lemma ListenSendsStale(data: Table, m: Message, events: seq<Update>)
    requires ParseMessageAsWritten(m).value.Some?
    requires var s := ParseMessageAsWritten(m).value.value; s.region in data && Before(s.updatedAt, data[s.region].updatedAt)
    ensures var o := Listen(data, true, [NewMessage(m)] + events);
      && o.sent == [ParseMessageAsWritten(m).value.value] + Listen(data, true, events).sent
      && o.data == Listen(data, true, events).data
  {
    var s := ParseMessageAsWritten(m).value.value;
    MergeDropsOlder(data, s);
    assert ([NewMessage(m)] + events)[1..] == events;
  }

  // ---------------------------------------------------------------------------------------
  // run

  /**
   * What a run does to a store, history first and the live loop after it: a history error ends
   * the run before the loop; otherwise the loop's end decides it.
   */
  function RunOutcome(data: Table, feed: bool, client: Client, from: DateTime): (o: Outcome)
    ensures o.err != Canceled ==> o.sent == [] || o.err == NilUpdate || o.err.Wrapped?
  {
    var h := HistoryReplay(data, client.history, from);
    if h.err.Some? then Outcome(h.data, [], h.err.value)
    else Listen(h.data, feed, client.updates)
  }

  /**
   * A run whose history succeeds leaves the store with `set` applied to the history statuses,
   * oldest first, and then to the live statuses.
   */
  lemma RunOutcomeStore(data: Table, feed: bool, client: Client, from: DateTime)
    requires HistoryReplay(data, client.history, from).err.None?
    ensures Backfill(client.history, from, 0).Ok()
    ensures RunOutcome(data, feed, client, from).data
         == MergeAll(MergeAll(data, HistoryStatuses(Reversed(Backfill(client.history, from, 0).value))), LiveStatuses(client.updates))
  {
    var b := Backfill(client.history, from, 0);
    ApplyHistoryIsMergeAll(data, Reversed(b.value));
    ListenIsMergeAll(HistoryReplay(data, client.history, from).data, feed, client.updates);
  }

  /** However a run ends, it removes no region and moves no stored time backwards. */
  lemma RunNeverRegresses(data: Table, feed: bool, client: Client, from: DateTime, id: Region.ID)
    requires id in data
    ensures var d := RunOutcome(data, feed, client, from).data;
      id in d && !Before(d[id].updatedAt, data[id].updatedAt)
  {
    var b := Backfill(client.history, from, 0);
    var h := HistoryReplay(data, client.history, from);
    if b.Ok() {
      ApplyHistoryIsMergeAll(data, Reversed(b.value));
      MergeAllNeverRegresses(data, HistoryStatuses(Reversed(b.value)), id);
    }
    if h.err.None? {
      var d := RunOutcome(data, feed, client, from).data;
      ListenIsMergeAll(h.data, feed, client.updates);
      MergeAllNeverRegresses(h.data, LiveStatuses(client.updates), id);
      BeforeIsStrictTotalOrder(h.data[id].updatedAt, d[id].updatedAt, data[id].updatedAt);
    }
  }

  /**
   * The error of a run: a backfill error, else the error of the first message of the batch that
   * fails to parse, ends the run with the store the replay left; otherwise the live loop's error.
   * The run ends canceled exactly when history succeeds and no live event stops the loop.
   */
  lemma RunOutcomeError(data: Table, feed: bool, client: Client, from: DateTime)
    ensures var b := Backfill(client.history, from, 0); var h := HistoryReplay(data, client.history, from);
      var o := RunOutcome(data, feed, client, from);
      && (!b.Ok() ==> o == Outcome(data, [], b.err.value))
      && (b.Ok() ==> (h.err.Some? <==> !Parses(Reversed(b.value))))
      && (h.err.Some? ==> o == Outcome(h.data, [], h.err.value))
      && (h.err.None? ==> o.err == Listen(h.data, feed, client.updates).err)
      && (o.err == Canceled <==> h.err.None? && Continues(client.updates))
  {
    var b := Backfill(client.history, from, 0);
    var h := HistoryReplay(data, client.history, from);
    if b.Ok() {
      ApplyHistoryFailsIffBadMessage(data, Reversed(b.value));
    }
    ListenEndsCanceled(h.data, feed, client.updates);
  }

  lemma MergeAllOfRegistered(data: Table, ss: seq<Status>)
    requires forall s | s in ss :: Region.IsRegistered(s.region)
    ensures data.Keys <= MergeAll(data, ss).Keys <= data.Keys + Region.NamesById.Keys
  {
    forall i | 0 <= i < |ss|
      ensures ss[i].region in Region.NamesById
    {
      assert ss[i] in ss;
      Region.IsRegisteredInTable(ss[i].region);
    }
  }

  /** The history replay adds no key but registered regions. */
  lemma HistoryAddsRegistered(data: Table, history: seq<Page>, from: DateTime)
    ensures data.Keys <= HistoryReplay(data, history, from).data.Keys <= data.Keys + Region.NamesById.Keys
  {
    var b := Backfill(history, from, 0);
    if b.Ok() {
      ApplyHistoryIsMergeAll(data, Reversed(b.value));
      MergeAllOfRegistered(data, HistoryStatuses(Reversed(b.value)));
    }
  }

  /** The live loop adds no key but registered regions. */
  lemma ListenAddsRegistered(data: Table, feed: bool, events: seq<Update>)
    ensures data.Keys <= Listen(data, feed, events).data.Keys <= data.Keys + Region.NamesById.Keys
  {
    ListenIsMergeAll(data, feed, events);
    MergeAllOfRegistered(data, LiveStatuses(events));
  }

  /**
   * A run adds no key but registered regions, since every status it stores was resolved by name;
   * so a store keyed by exactly the registry stays so, and lookups of `Invalid` keep failing.
   */
  lemma RunKeepsRegistry(data: Table, feed: bool, client: Client, from: DateTime)
    ensures data.Keys <= RunOutcome(data, feed, client, from).data.Keys <= data.Keys + Region.NamesById.Keys
    ensures data.Keys == Region.NamesById.Keys ==> RunOutcome(data, feed, client, from).data.Keys == Region.NamesById.Keys
  {
    var h := HistoryReplay(data, client.history, from);
    HistoryAddsRegistered(data, client.history, from);
    ListenAddsRegistered(h.data, feed, client.updates);
  }

  /** The outbound status feed (Go: the buffered `updates` channel). */
  class Feed {
    /** Every status sent on it, in order. */
    var items: seq<Status>
    var closed: bool

    constructor()
      ensures items == [] && !closed
    {
      items := [];
      closed := false;
    }
  }

  /** The scraper (Go: `TgScraper`). */
  class TgScraper {
    const client: Client
    const historyFromDate: DateTime
    const alertData: AlertData
    /** Whether `Run` has started (Go: the `sync.Once`). */
    var ran: bool
    /** Whether the history task has finished (Go: the closed `historyDone` channel). */
    var historyDone: bool
    /** The outbound feed, created on the first `UpdatesChan` call. */
    var updates: Feed?

    /** The store is well formed, and a feed stays open until a run closes it. */
    ghost predicate Valid()
      reads this, alertData, updates
    {
      && alertData.Valid()
      && alertData.data.Keys == Region.NamesById.Keys
      && (!ran && updates != null ==> !updates.closed)
    }

    /** `NewTgScraper`; the history horizon, two days before now in Go, is a parameter. */
    constructor(client: Client, historyFromDate: DateTime)
      ensures Valid() && fresh(alertData)
      ensures this.client == client && this.historyFromDate == historyFromDate
      ensures !ran && !historyDone && updates == null
      ensures alertData.data == InitialData()
    {
      this.client := client;
      this.historyFromDate := historyFromDate;
      alertData := new AlertData();
      ran := false;
      historyDone := false;
      updates := null;
      InitialDataCoversRegistry();
    }

    /** `UpdatesChan`: creates the feed on the first call and returns the same one after. */
    method UpdatesChan() returns (feed: Feed)
      requires Valid()
      modifies this
      ensures Valid() && updates == feed
      ensures old(updates) != null ==> feed == old(updates)
      ensures old(updates) == null ==> fresh(feed) && feed.items == [] && !feed.closed
      ensures ran == old(ran) && historyDone == old(historyDone)
    {
      if updates == null {
        updates := new Feed();
      }
      feed := updates;
    }

    /** `sendUpdate`: nothing when no feed was asked for; otherwise the status goes out on it. */
    method SendUpdate(status: Status)
      requires updates != null ==> !updates.closed
      modifies updates
      ensures updates != null ==> updates.items == old(updates.items) + [status] && !updates.closed
    {
      if updates == null {
        return;
      }
      updates.items := updates.items + [status];
    }

    /** `closeUpdates`: closes the feed, if there is one. */
    method CloseUpdates()
      requires updates != null ==> !updates.closed
      modifies updates
      ensures updates != null ==> updates.closed && updates.items == old(updates.items)
    {
      if updates != null {
        updates.closed := true;
      }
    }

    /**
     * `getMessagesForPeriod`: one message per request, from the newest back, each request starting
     * from the message the previous one returned. Also returns the `FromMessageId` of every request.
     */
    method GetMessagesForPeriod(from: DateTime) returns (r: Result<seq<Message>>, cursors: seq<int>)
      ensures r == Backfill(client.history, from, 0)
      ensures RequestCursors(client.history, cursors)
      ensures forall k: nat | k < |cursors| - 1 :: HasHead(client.history, k) && !Before(client.history[k].messages[0].date, from)
      ensures var last := Fetch(client.history, |cursors| - 1);
        && (last.PageError? || Stops(last, from))
        && (r.Ok() <==> last.Page?)
    {
      var history := client.history;
      var messages: seq<Message> := [];
      var fromMessageId := 0;
      var call: nat := 0;
      cursors := [fromMessageId];
      assert Prefixed(messages, Backfill(history, from, call)) == Backfill(history, from, call) by {
        assert [] + Backfill(history, from, call).value == Backfill(history, from, call).value;
      }
      while true
        invariant call <= |history| && |cursors| == call + 1
        invariant RequestCursors(history, cursors)
        invariant forall k: nat | k < call :: HasHead(history, k) && !Before(history[k].messages[0].date, from)
        invariant Backfill(history, from, 0) == Prefixed(messages, Backfill(history, from, call))
        decreases |history| - call
      {
        var page := Fetch(history, call);
        if page.PageError? {
          return Result([], Some(Transport(page.message))), cursors;
        }
        if page.messages == [] {
          break;
        }
        var message := page.messages[0];
        if Before(message.date, from) {
          break;
        }
        fromMessageId := message.id;
        ghost var later := Backfill(history, from, call + 1);
        ghost var kept := if Keep(message) then [message] else [];
        assert Fetch(history, call) == Page(page.messages);
        assert Backfill(history, from, call) == Prefixed(kept, later);
        PrefixedTwice(messages, kept, later);
        RequestCursorsExtend(history, cursors, page);
        call := call + 1;
        cursors := cursors + [fromMessageId];
        if message.forwarded {
          assert messages + kept == messages;
          continue;
        }
        if !message.content.Text? {
          assert messages + kept == messages;
          continue;
        }
        messages := messages + [message];
      }
      assert messages + [] == messages;
      r := Result(messages, None);
    }

    /**
     * `history`: backfills, reverses the batch to oldest first in place, and replays it into the
     * store; marks the history task done on every path.
     */
    method History() returns (err: Option<Error>)
      requires alertData.Valid()
      modifies alertData, this`historyDone
      ensures alertData.Valid() && historyDone
      ensures var h := HistoryReplay(old(alertData.data), client.history, historyFromDate);
        alertData.data == h.data && err == h.err
    {
      var batch, _ := GetMessagesForPeriod(historyFromDate);
      if !batch.Ok() {
        historyDone := true;
        return batch.err;
      }
      var messages := new Message[|batch.value|](i requires 0 <= i < |batch.value| => batch.value[i]);
      assert messages[..] == batch.value;
      ReverseInPlace(messages);
      err := ReplayHistory(messages[..]);
      historyDone := true;
    }

    /** The replay loop of `history` over a batch, oldest first. */
    method ReplayHistory(batch: seq<Message>) returns (err: Option<Error>)
      requires alertData.Valid()
      modifies alertData
      ensures alertData.Valid()
      ensures var h := ApplyHistory(old(alertData.data), batch); alertData.data == h.data && err == h.err
    {
      ghost var start := alertData.data;
      for i := 0 to |batch|
        invariant alertData.Valid()
        invariant ApplyHistory(start, batch) == ApplyHistory(alertData.data, batch[i..])
      {
        var status := ParseMessageAsWritten(batch[i]);
        assert batch[i..][1..] == batch[i + 1..];
        if !status.Ok() {
          return Some(Wrapped("unable to scrape history", status.err.value));
        }
        if status.value.Some? {
          alertData.Set(Some(status.value.value.(isHistory := true)));
        }
      }
      return None;
    }

    /**
     * `listenUpdates`: the live loop; the feed, if any, is closed when it ends. The end of the
     * scripted events stands for the cancellation of the context.
     */
    method ListenUpdates() returns (err: Error)
      requires alertData.Valid() && (updates != null ==> !updates.closed)
      modifies alertData, updates
      ensures alertData.Valid()
      ensures var o := Listen(old(alertData.data), updates != null, client.updates);
        && alertData.data == o.data && err == o.err
        && (updates != null ==> updates.items == old(updates.items) + o.sent && updates.closed)
    {
      var events := client.updates;
      var feed := updates != null;
      ghost var start := alertData.data;
      ghost var items := if feed then updates.items else [];
      ghost var sent: seq<Status> := [];
      var i := 0;
      while i < |events|
        invariant 0 <= i <= |events|
        invariant alertData.Valid() && (updates != null ==> !updates.closed)
        invariant updates != null ==> updates.items == items + sent
        invariant var o := Listen(start, feed, events); var rest := Listen(alertData.data, feed, events[i..]);
          o == Outcome(rest.data, sent + rest.sent, rest.err)
      {
        ListenStep(alertData.data, feed, events, i);
        ghost var before := if feed then updates.items else [];
        var stop, e := HandleUpdate(events[i]);
        if stop {
          CloseUpdates();
          return e;
        }
        ghost var r := Receive(events[i]);
        if feed && r.status.Some? {
          ConcatAssociates(sent, [r.status.value], Listen(alertData.data, feed, events[i + 1..]).sent);
          ConcatAssociates(items, sent, [r.status.value]);
          sent := sent + [r.status.value];
        } else {
          ConcatEmpty(before);
        }
        i := i + 1;
      }
      CloseUpdates();
      return Canceled;
    }

    /**
     * One turn of the loop of `listenUpdates`: a status received is stored and then sent; `stop`
     * says whether the event ends the loop, with the error `err`.
     */
    method HandleUpdate(update: Update) returns (stop: bool, err: Error)
      requires alertData.Valid() && (updates != null ==> !updates.closed)
      modifies alertData, updates
      ensures alertData.Valid() && (updates != null ==> !updates.closed)
      ensures var r := Receive(update); var received := r.Continue? && r.status.Some?;
        && stop == r.Stop? && (stop ==> err == r.err)
        && alertData.data == (if received then Merge(old(alertData.data), r.status.value) else old(alertData.data))
        && (updates != null ==> updates.items == old(updates.items) + (if received then [r.status.value] else []))
    {
      match update {
        case Nil =>
          return true, NilUpdate;
        case Other =>
        case NewMessage(m) =>
          var status := ParseMessageAsWritten(m);
          if !status.Ok() {
            return true, Wrapped("unable to scrape update", status.err.value);
          }
          if status.value.Some? {
            alertData.Set(Some(status.value.value));
            SendUpdate(status.value.value);
          }
      }
      return false, Canceled;
    }

    /**
     * `Run`: the first call runs history and then the live loop, and returns their error wrapped;
     * every later call does nothing and returns no error.
     */
    method Run() returns (err: Option<Error>)
      requires Valid()
      modifies this, alertData, updates
      ensures Valid() && ran
      ensures updates == old(updates)
      ensures old(ran) ==>
        && err.None? && alertData.data == old(alertData.data) && historyDone == old(historyDone)
        && (updates != null ==> updates.items == old(updates.items) && updates.closed == old(updates.closed))
      ensures !old(ran) ==> var o := RunOutcome(old(alertData.data), updates != null, client, historyFromDate);
        && historyDone && alertData.data == o.data && err == Some(Wrapped("scraper", o.err))
        && (updates != null ==> updates.items == old(updates.items) + o.sent && updates.closed)
    {
      if ran {
        return None;
      }
      RunKeepsRegistry(alertData.data, updates != null, client, historyFromDate);
      ran := true;
      var historyErr := History();
      if historyErr.Some? {
        CloseUpdates();
        return Some(Wrapped("scraper", historyErr.value));
      }
      var listenErr := ListenUpdates();
      return Some(Wrapped("scraper", listenErr));
    }
  }

  // ---------------------------------------------------------------------------------------
  // The scripted client of tgscraper_test.go

  const Followup := "Слідкуйте за подальшими повідомленнями."

  const OdesaCleared := Message(0, DateTime(2024, 8, 19, 19, 46, 52), false,
    Text(Render('\U{1F7E2}', "19:46", Cleared, "Одеська область", true) + "\n" + Followup + "\n#Одеська_область"))
  const OdesaRaised := Message(0, DateTime(2024, 8, 21, 2, 15, 19), false,
    Text(Render('\U{1F534}', "02:15", Raised, "Одеська область", false) + "\n" + Followup + "\n#Одеська_область"))
  const KyivRaised := Message(0, DateTime(2024, 8, 22, 8, 40, 1), false,
    Text(Render('\U{1F534}', "08:39", Raised, "м. Київ", false) + "\n" + Followup + "\n#м_Київ"))
  const KyivCleared := Message(0, DateTime(2024, 8, 22, 10, 6, 43), false,
    Text(Render('\U{1F7E2}', "10:06", Cleared, "м. Київ", true) + "\n" + Followup + "\n#м_Київ"))

  /** Newest page first; the live feed holds the two Kyiv messages, then the context is canceled. */
  const StubClient := Client([Page([OdesaRaised]), Page([OdesaCleared])], [NewMessage(KyivRaised), NewMessage(KyivCleared)])
  const StubHorizon := DateTime(2024, 8, 20, 0, 0, 0)

  const OdesaStatus := Status(Region.Odesa, true, DateTime(2024, 8, 21, 2, 15, 0), true)
  const KyivRaisedStatus := Status(Region.KyivCity, true, DateTime(2024, 8, 22, 8, 39, 0), false)
  const KyivClearedStatus := Status(Region.KyivCity, false, DateTime(2024, 8, 22, 10, 6, 0), false)

  lemma ParseOdesaRaised()
    ensures ParseMessageAsWritten(OdesaRaised) == Result(Some(OdesaStatus.(isHistory := false)), None)
    ensures ParseMessage(OdesaRaised) == ParseMessageAsWritten(OdesaRaised)
  {
    assert ClockText(2, 15) == "02:15";
    assert Region.String(Region.Odesa) == "Одеська область";
    ParseStubMessage(OdesaRaised, '\U{1F534}', 2, 15, Raised, Region.Odesa, false, "\n#Одеська_область");
  }

  lemma ParseKyivRaised()
    ensures ParseMessageAsWritten(KyivRaised) == Result(Some(KyivRaisedStatus), None)
    ensures ParseMessage(KyivRaised) == ParseMessageAsWritten(KyivRaised)
  {
    assert ClockText(8, 39) == "08:39";
    assert Region.String(Region.KyivCity) == "м. Київ";
    ParseStubMessage(KyivRaised, '\U{1F534}', 8, 39, Raised, Region.KyivCity, false, "\n#м_Київ");
  }

  lemma ParseKyivCleared()
    ensures ParseMessageAsWritten(KyivCleared) == Result(Some(KyivClearedStatus), None)
    ensures ParseMessage(KyivCleared) == ParseMessageAsWritten(KyivCleared)
  {
    assert ClockText(10, 6) == "10:06";
    assert Region.String(Region.KyivCity) == "м. Київ";
    ParseStubMessage(KyivCleared, '\U{1F7E2}', 10, 6, Cleared, Region.KyivCity, true, "\n#м_Київ");
  }

  lemma ParseStubMessage(m: Message, marker: char, hour: int, minute: int, phrase: string, id: Region.ID, dot: bool, tag: string)
    requires IsMarker(marker) && 0 <= hour <= 23 && 0 <= minute <= 59
    requires phrase == Raised || phrase == Cleared
    requires id == Region.Odesa || id == Region.KyivCity
    requires !Before(m.date, DateTime(m.date.year, m.date.month, m.date.day, hour, minute, 0))
    requires m.content == Text(Render(marker, ClockText(hour, minute), phrase, Region.String(id), dot) + "\n" + Followup + tag)
    ensures ParseMessageAsWritten(m) == Result(Some(Status(id, phrase == Raised, DateTime(m.date.year, m.date.month, m.date.day, hour, minute, 0), false)), None)
    ensures ParseMessage(m) == ParseMessageAsWritten(m)
  {
    var name := Region.String(id);
    assert name == "Одеська область" || name == "м. Київ";
    assert IsLineName(name);
    Region.ParseOfString(id);
    var line := Render(marker, ClockText(hour, minute), phrase, name, dot);
    assert line + "\n" + Followup + tag == line + "\n" + (Followup + tag);
    ParseMessageOfStatusLine(m, marker, hour, minute, phrase, name, dot, Followup + tag);
  }

  /**
   * The history of the scripted client: the 19:46 all-clear of 19 August is older than the
   * horizon and ends the backfill, so Odesa is left with the alert raised at 02:15 on 21 August.
   */
  lemma StubHistory(data: Table)
    ensures HistoryReplay(data, StubClient.history, StubHorizon) == Replay(Merge(data, OdesaStatus), None)
  {
    ParseOdesaRaised();
    OnePageHistory(data, OdesaRaised, OdesaCleared, StubHorizon);
  }

  /** A history of one kept message in the window, then one older than the horizon. */
  lemma OnePageHistory(data: Table, newer: Message, older: Message, from: DateTime)
    requires Keep(newer) && !Before(newer.date, from) && Before(older.date, from)
    requires ParseMessageAsWritten(newer).Ok() && ParseMessageAsWritten(newer).value.Some?
    ensures HistoryReplay(data, [Page([newer]), Page([older])], from)
         == Replay(Merge(data, ParseMessageAsWritten(newer).value.value.(isHistory := true)), None)
  {
    var h := [Page([newer]), Page([older])];
    assert Backfill(h, from, 1) == Result([], None);
    assert Backfill(h, from, 0) == Result([newer] + [], None);
    assert Reversed([newer]) == [newer];
    var d := Merge(data, ParseMessageAsWritten(newer).value.value.(isHistory := true));
    assert [newer][1..] == [] && ApplyHistory(d, []) == Replay(d, None);
    assert ApplyHistory(data, [newer]) == Replay(d, None);
  }

  /** The live feed of the scripted client: both Kyiv statuses are merged and sent, then the run is canceled. */
  lemma StubListen(data: Table)
    ensures Listen(data, true, StubClient.updates)
         == Outcome(Merge(Merge(data, KyivRaisedStatus), KyivClearedStatus), [KyivRaisedStatus, KyivClearedStatus], Canceled)
  {
    ParseKyivRaised();
    ParseKyivCleared();
    var d2 := Merge(data, KyivRaisedStatus);
    var d3 := Merge(d2, KyivClearedStatus);
    ListenReceives(d2, KyivCleared, KyivClearedStatus, []);
    assert [NewMessage(KyivCleared)] + [] == [NewMessage(KyivCleared)];
    ListenReceives(data, KyivRaised, KyivRaisedStatus, [NewMessage(KyivCleared)]);
    assert StubClient.updates == [NewMessage(KyivRaised)] + [NewMessage(KyivCleared)];
  }

  /** A message that parses to a status: the loop merges it, sends it and goes on. */
  lemma ListenReceives(data: Table, m: Message, s: Status, events: seq<Update>)
    requires ParseMessageAsWritten(m) == Result(Some(s), None)
    ensures var rest := Listen(Merge(data, s), true, events);
      Listen(data, true, [NewMessage(m)] + events) == Outcome(rest.data, [s] + rest.sent, rest.err)
  {
    assert ([NewMessage(m)] + events)[1..] == events;
  }

  /** The whole scripted run, on any store: the Odesa status of history, then the two Kyiv statuses, sent. */
  lemma StubRunOutcome(data: Table)
    ensures RunOutcome(data, true, StubClient, StubHorizon)
         == Outcome(Merge(Merge(Merge(data, OdesaStatus), KyivRaisedStatus), KyivClearedStatus), [KyivRaisedStatus, KyivClearedStatus], Canceled)
  {
    StubHistory(data);
    StubListen(Merge(data, OdesaStatus));
  }

  /**
   * The store the scripted run of `TestTgScraper` leaves behind, from the initial one: Odesa holds
   * the alert of 02:15 and the Crimea and Luhansk seeds stand.
   */
  lemma StubStore(d0: Table)
    requires d0 == InitialData()
    ensures var d := Merge(Merge(Merge(d0, OdesaStatus), KyivRaisedStatus), KyivClearedStatus);
      && d[Region.Odesa] == OdesaStatus
      && d[Region.Crimea] == CrimeaSeed
      && d[Region.Luhansk] == LuhanskSeed
      && d[Region.KyivCity] == KyivClearedStatus
  {
    InitialDataSeeds();
    InitialDataOthers(Region.Odesa);
    InitialDataOthers(Region.KyivCity);
    var d1 := Merge(d0, OdesaStatus);
    MergeReplacesNotOlder(d0, OdesaStatus);
    var d2 := Merge(d1, KyivRaisedStatus);
    MergeReplacesNotOlder(d1, KyivRaisedStatus);
    MergeReplacesNotOlder(d2, KyivClearedStatus);
  }
}
