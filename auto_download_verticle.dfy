/**
 * The auto-download scheduler with its I/O turned into parameters: the
 * per-account waiting queues, the download-slot arithmetic, the daily
 * download window, rule normalisation and the history-scan cursor that
 * walks the rule's file types one search page at a time.
 */
module AutoDownload {
  import opened Wrappers
  import opened AutoRecords
  import opened Holder
  import Files
  import opened Sequences

  const DefaultLimit: int := 5

  const MaxWaitingLength: int := 30

  /** The page size of one history search, `min(MAX_WAITING_LENGTH, 100)`. */
  const SearchLimit: int := 30

  const DefaultFileTypeOrder: seq<string> := ["photo", "video", "audio", "file"]

  /** A chat message carrying a file, reduced to what the scheduler reads. */
  datatype Message = Message(chatId: int, id: int, fileUniqueId: string)

  /** One page of search results and the cursor for the next page. */
  datatype Page = Page(messages: seq<Message>, nextFromMessageId: int)

  /** The history search the scan sends for the item's current cursor. */
  datatype SearchRequest = SearchRequest(
    query: Option<string>,
    chatId: int,
    fromMessageId: int,
    limit: int,
    fileType: string)

  /**
   * What the scan learns from outside: the number of files downloading for
   * the account (None when the count query returns null), the search results
   * (None when the search fails), the stored records by file unique id
   * (None when that query fails) and the batch de-duplication.
   */
  datatype Services = Services(
    downloading: Option<int>,
    search: SearchRequest -> Option<Page>,
    files: Option<map<string, Files.FileRecord>>,
    unique: seq<Message> -> seq<Message>)

  // ---------------------------------------------------------------------
  // Blank strings and rule normalisation
  // ---------------------------------------------------------------------

  /**
   * A blank character: a Java whitespace or space character, or one of
   * the extra characters the blank test also treats as blank.
   */
  predicate IsBlankChar(c: char)
  {
    var n := c as int;
    (0x09 <= n <= 0x0D) || (0x1C <= n <= 0x20) || n == 0x00 || n == 0xA0 || n == 0x1680 ||
    n == 0x180E || (0x2000 <= n <= 0x200A) || n == 0x2028 || n == 0x2029 || n == 0x202A ||
    n == 0x202F || n == 0x205F || n == 0x2800 || n == 0x3000 || n == 0x3164 || n == 0xFEFF
  }

  /** Null, empty, or blank characters only. */
  predicate IsBlank(s: Option<string>)
  {
    s.None? || forall k :: 0 <= k < |s.value| ==> IsBlankChar(s.value[k])
  }

  /** The search keyword of a rule: its query unless the rule or the query is missing or blank. */
  function RuleQuery(rule: Option<Rule>): (q: Option<string>)
    ensures q.None? <==> rule.None? || IsBlank(rule.value.query)
    ensures q.Some? ==> q == rule.value.query
  {
    if rule.Some? && !IsBlank(rule.value.query) then rule.value.query else None
  }

  /** The file types a rule scans, in order: its own list when non-empty, the default order otherwise. */
  function RuleFileTypes(rule: Option<Rule>): (types: seq<string>)
    ensures |types| > 0
    ensures rule.Some? && rule.value.fileTypes.Some? && |rule.value.fileTypes.value| > 0 ==>
      types == rule.value.fileTypes.value
    ensures !(rule.Some? && rule.value.fileTypes.Some? && |rule.value.fileTypes.value| > 0) ==>
      types == DefaultFileTypeOrder
  {
    if rule.Some? && rule.value.fileTypes.Some? && |rule.value.fileTypes.value| > 0
    then rule.value.fileTypes.value
    else DefaultFileTypeOrder
  }

  datatype ScanRule = ScanRule(query: Option<string>, fileTypes: seq<string>)

  /**
   * `handleRule`: the keyword and type order to scan with, and the item
   * with a blank type cursor moved to the first type.
   */
  function HandleRule(item: Item): (r: (ScanRule, Item))
    ensures r.0 == ScanRule(RuleQuery(item.rule), RuleFileTypes(item.rule))
    ensures IsBlank(item.nextFileType) ==> r.1 == item.(nextFileType := Some(r.0.fileTypes[0]))
    ensures !IsBlank(item.nextFileType) ==> r.1 == item
    ensures r.1.nextFileType.Some?
  {
    var types := RuleFileTypes(item.rule);
    var next := if IsBlank(item.nextFileType) then item.(nextFileType := Some(types[0])) else item;
    (ScanRule(RuleQuery(item.rule), types), next)
  }

  /** Normalising an already normalised item changes nothing. */
  lemma HandleRuleIdempotent(item: Item)
    ensures HandleRule(HandleRule(item).1) == HandleRule(item)
  {
  }

  // ---------------------------------------------------------------------
  // The download window and the download slots
  // ---------------------------------------------------------------------

  /** The configured daily window, as times of day on one clock. */
  datatype TimeWindow = TimeWindow(start: int, end: int)

  /**
   * `isDownloadTime`: no window always allows; otherwise `now` must lie
   * strictly inside the window, which wraps past midnight when it starts
   * after it ends.
   */
  function DownloadTime(window: Option<TimeWindow>, now: int): (b: bool)
    ensures window.None? ==> b
    ensures window.Some? && window.value.start == window.value.end ==> !b
    ensures window.Some? && b ==> now != window.value.start && now != window.value.end
  {
    match window
    case None => true
    case Some(w) =>
      if w.start > w.end then now > w.start || now < w.end
      else now > w.start && now < w.end
  }

  /** How far `to` lies ahead of `from` going forward round a clock of `day` ticks. */
  function Ahead(from: int, to: int, day: int): (d: int)
    requires 0 <= from < day && 0 <= to < day
    ensures 0 <= d < day
    ensures (from + d == to) || (from + d == to + day)
  {
    if to >= from then to - from else to - from + day
  }

  /**
   * On a clock of `day` ticks the window is the open arc going forward from
   * start to end: `now` is allowed iff it lies strictly ahead of start and
   * strictly before end, measured forward from start. An empty arc
   * (start == end) allows nothing.
   */
  lemma DownloadTimeIsOpenArc(start: int, end: int, now: int, day: int)
    requires 0 <= start < day && 0 <= end < day && 0 <= now < day
    ensures DownloadTime(Some(TimeWindow(start, end)), now) <==>
      0 < Ahead(start, now, day) < Ahead(start, end, day)
  {
  }

  /** `getSurplusSize`: the free download slots, `limit` when the count is null. */
  function SurplusSize(limit: int, downloading: Option<int>): (s: int)
    ensures downloading.None? ==> s == limit
    ensures downloading.Some? ==> s >= 0 && s >= limit - downloading.value
    ensures downloading.Some? ==> s == 0 || s == limit - downloading.value
  {
    if downloading.None? then limit
    else if limit - downloading.value > 0 then limit - downloading.value
    else 0
  }

  /** `isExceedLimit`: no free slot, or a waiting queue longer than the limit. */
  function ExceedsLimit(limit: int, downloading: Option<int>, queue: Option<seq<Message>>): (b: bool)
    ensures !b ==> SurplusSize(limit, downloading) > 0
    ensures queue.Some? && |queue.value| > limit ==> b
    ensures b ==> SurplusSize(limit, downloading) <= 0 || (queue.Some? && |queue.value| > limit)
  {
    SurplusSize(limit, downloading) <= 0 || (queue.Some? && |queue.value| > limit)
  }

  /**
   * A scan passes the limit check exactly when the account downloads fewer
   * than `limit` files (or the count is null and `limit` is positive) and
   * its queue, if any, holds at most `limit` messages.
   */
  lemma NotExceededMeansFreeSlot(limit: int, downloading: Option<int>, queue: Option<seq<Message>>)
    ensures !ExceedsLimit(limit, downloading, queue) <==>
      (downloading.Some? ==> downloading.value < limit) &&
      (downloading.None? ==> limit > 0) &&
      (queue.Some? ==> |queue.value| <= limit)
  {
  }

  // ---------------------------------------------------------------------
  // The waiting queues
  // ---------------------------------------------------------------------

  function Lookup(waiting: map<int, seq<Message>>, t: int): Option<seq<Message>>
  {
    if t in waiting then Some(waiting[t]) else None
  }

  /** The map after a queue update: `None` leaves it as it was. */
  function Store(waiting: map<int, seq<Message>>, t: int, q: Option<seq<Message>>): map<int, seq<Message>>
  {
    if q.Some? then waiting[t := q.value] else waiting
  }

  /** Two queue updates of one account are one update to the later queue. */
  lemma StoreAgain(m0: map<int, seq<Message>>, m1: map<int, seq<Message>>, m2: map<int, seq<Message>>, t: int)
    requires m1 == Store(m0, t, Lookup(m1, t))
    requires m2 == Store(m1, t, Lookup(m2, t))
    ensures m2 == Store(m0, t, Lookup(m2, t))
  {
    if t in m2 && t in m1 {
      assert m2 == m0[t := m2[t]];
    }
  }

  /**
   * `addWaitingDownloadMessages` on one account's queue: the new queue, or
   * None where the source returns false and stores nothing. An empty
   * batch is refused; an unforced add is refused once the queue holds more
   * than `MaxWaitingLength`; otherwise the de-duplicated batch goes to the
   * tail.
   */
  function AddWaiting(queue: Option<seq<Message>>, batch: seq<Message>, force: bool,
                      unique: seq<Message> -> seq<Message>): (r: Option<seq<Message>>)
    ensures r.None? <==> |batch| == 0 || (!force && |queue.GetOr([])| > MaxWaitingLength)
    ensures r.Some? ==> |queue.GetOr([])| <= |r.value| && r.value[..|queue.GetOr([])|] == queue.GetOr([])
    ensures r.Some? ==> r.value[|queue.GetOr([])|..] == unique(batch)
  {
    if |batch| == 0 then None
    else
      var q := queue.GetOr([]);
      if !force && |q| > MaxWaitingLength then None
      else Some(q + unique(batch))
  }

  /** A forced add of a non-empty batch is never refused, whatever the queue length. */
  lemma ForcedAddAlwaysSucceeds(queue: Option<seq<Message>>, batch: seq<Message>, unique: seq<Message> -> seq<Message>)
    requires |batch| > 0
    ensures AddWaiting(queue, batch, true, unique).Some?
  {
  }

  /** The number of messages one download tick takes from the head of a queue. */
  function PollCount(surplus: int, queueLength: nat): (n: nat)
    ensures n <= queueLength
    ensures surplus <= 0 ==> n == 0
    ensures surplus > 0 ==> n <= surplus
    ensures surplus > 0 ==> n == surplus || n == queueLength
    ensures surplus > 0 && queueLength > 0 ==> n > 0
  {
    if surplus <= 0 then 0 else if surplus < queueLength then surplus else queueLength
  }

  /**
   * Queued messages leave in arrival order: after an add, a tick that takes
   * no more than the old queue takes only old messages, from the head.
   */
  lemma QueueIsFifo(queue: Option<seq<Message>>, batch: seq<Message>, force: bool,
                    unique: seq<Message> -> seq<Message>, surplus: int)
    requires AddWaiting(queue, batch, force, unique).Some?
    requires PollCount(surplus, |AddWaiting(queue, batch, force, unique).value|) <= |queue.GetOr([])|
    ensures var q := AddWaiting(queue, batch, force, unique).value;
      q[..PollCount(surplus, |q|)] == queue.GetOr([])[..PollCount(surplus, |q|)]
  {
    var q := AddWaiting(queue, batch, force, unique).value;
    var n := PollCount(surplus, |q|);
    assert q[..n] == q[..|queue.GetOr([])|][..n];
  }

  /** The messages of a queue that are not from chat c, in order. */
  function DropChat(q: seq<Message>, c: int): (r: seq<Message>)
    ensures |r| <= |q|
    ensures forall m :: m in r <==> m in q && m.chatId != c
    decreases |q|
  {
    if q == [] then []
    else
      var rest := DropChat(q[..|q| - 1], c);
      var m := q[|q| - 1];
      assert forall x :: x in q <==> x in q[..|q| - 1] || x == m by {
        assert q == q[..|q| - 1] + [m];
      }
      if m.chatId == c then rest else rest + [m]
  }

  /** Dropping a chat keeps the survivors in queue order: it works piecewise on a split queue. */
  lemma {:induction false} DropChatAppend(a: seq<Message>, b: seq<Message>, c: int)
    ensures DropChat(a + b, c) == DropChat(a, c) + DropChat(b, c)
    decreases |b|
  {
    if b == [] {
      assert a + b == a;
    } else {
      var init := b[..|b| - 1];
      var m := b[|b| - 1];
      assert (a + b)[..|a + b| - 1] == a + init;
      assert (a + b)[|a + b| - 1] == m;
      DropChatAppend(a, init, c);
    }
  }

  /** The waiting queues after the remove listener has seen `removed`. */
  function DropRemoved(waiting: map<int, seq<Message>>, removed: seq<Item>): (r: map<int, seq<Message>>)
    ensures r.Keys == waiting.Keys
    decreases |removed|
  {
    if removed == [] then waiting
    else
      var prev := DropRemoved(waiting, removed[..|removed| - 1]);
      var x := removed[|removed| - 1];
      if x.telegramId in prev then prev[x.telegramId := DropChat(prev[x.telegramId], x.chatId)] else prev
  }

  /**
   * The remove listener drops exactly the waiting messages of the removed
   * chats from their own account's queue, and keeps every other message.
   */
  lemma {:induction false} DropRemovedExact(waiting: map<int, seq<Message>>, removed: seq<Item>, t: int, m: Message)
    requires t in waiting
    ensures m in DropRemoved(waiting, removed)[t] <==> m in waiting[t] && !HasKey(removed, t, m.chatId)
    decreases |removed|
  {
    if removed != [] {
      var init := removed[..|removed| - 1];
      var x := removed[|removed| - 1];
      DropRemovedExact(waiting, init, t, m);
      assert removed == init + [x];
      HasKeyAppend(init, [x], t, m.chatId);
      assert HasKey([x], t, m.chatId) <==> x.telegramId == t && x.chatId == m.chatId by {
        assert HasKeyAt([x], 0, t, m.chatId) <==> x.telegramId == t && x.chatId == m.chatId;
      }
    }
  }

  /** A queue of an account none of whose chats was removed is left exactly as it was. */
  lemma {:induction false} DropRemovedKeepsOtherAccounts(waiting: map<int, seq<Message>>, removed: seq<Item>, t: int)
    requires t in waiting
    requires forall x :: x in removed ==> x.telegramId != t
    ensures DropRemoved(waiting, removed)[t] == waiting[t]
    decreases |removed|
  {
    if removed != [] {
      var init := removed[..|removed| - 1];
      assert forall x :: x in init ==> x in removed;
      DropRemovedKeepsOtherAccounts(waiting, init, t);
    }
  }

  // ---------------------------------------------------------------------
  // The history scan
  // ---------------------------------------------------------------------

  /** `indexOf`: the first position of x, or -1. */
  function IndexOf(types: seq<string>, x: string): (i: int)
    ensures -1 <= i < |types|
    ensures i == -1 <==> x !in types
    ensures 0 <= i ==> types[i] == x && x !in types[..i]
  {
    if types == [] then -1
    else if types[0] == x then 0
    else
      var j := IndexOf(types[1..], x);
      assert types[1..][..j + 1] == types[1..j + 2] by { }
      if j == -1 then -1 else j + 1
  }

  /**
   * The type after `current`, or None when `current` is the last type and
   * the history scan is complete. A type that is not in the list restarts
   * from the first type.
   */
  function NextType(types: seq<string>, current: string): (r: Option<string>)
    requires |types| > 0
    ensures r.None? <==> IndexOf(types, current) == |types| - 1
    ensures current !in types ==> r == Some(types[0])
  {
    var i := IndexOf(types, current) + 1;
    if i < |types| then Some(types[i]) else None
  }

  /** With distinct types the scan walks them in list order and completes after the last one. */
  lemma NextTypeWalksInOrder(types: seq<string>, i: int)
    requires NoDuplicates(types) && 0 <= i < |types|
    ensures i < |types| - 1 ==> NextType(types, types[i]) == Some(types[i + 1])
    ensures i == |types| - 1 ==> NextType(types, types[i]).None?
  {
    var k := IndexOf(types, types[i]);
    assert types[k] == types[i];
  }

  /**
   * A repeated type traps the cursor: `indexOf` finds the first copy, so the
   * type after the repeated one is the repeated one again and the scan never
   * reaches the end of the list.
   */
  lemma NextTypeRepeatsOnDuplicate()
    ensures NextType(["photo", "photo"], "photo") == Some("photo")
    ensures IndexOf(["photo", "photo"], "photo") != 1
  {
  }

  /** The item's stored file record blocks the download unless it is idle. */
  ghost predicate Keepable(m: Message, files: map<string, Files.FileRecord>)
    ensures m.fileUniqueId !in files ==> Keepable(m, files)
    ensures Keepable(m, files) ==> !Unreadable(m, files)
    ensures m.fileUniqueId in files && files[m.fileUniqueId].downloadStatus.None? ==> !Keepable(m, files)
  {
    m.fileUniqueId !in files || Files.IsDownloadStatus(files[m.fileUniqueId], Some(Files.DownloadStatus.Idle)) == Success(true)
  }

  /** A known file whose stored status names no status: the idle test throws on it. */
  ghost predicate Unreadable(m: Message, files: map<string, Files.FileRecord>)
    ensures Unreadable(m, files) ==>
      (m.fileUniqueId in files && files[m.fileUniqueId].downloadStatus.Some? &&
       Files.ParseDownloadStatus(files[m.fileUniqueId].downloadStatus.value).None?)
  {
    m.fileUniqueId in files && Files.IsDownloadStatus(files[m.fileUniqueId], Some(Files.DownloadStatus.Idle)).Failure?
  }

  /**
   * The history-page filter: keep a message whose file is unknown or known
   * and idle. The first known file with an unreadable status aborts the
   * filter with that error.
   */
  function KeepForDownload(messages: seq<Message>, files: map<string, Files.FileRecord>): (r: Result<seq<Message>, Files.StatusError>)
    ensures r.Failure? <==> exists m :: m in messages && Unreadable(m, files)
    ensures r.Success? ==> |r.value| <= |messages|
    ensures r.Success? ==> forall m :: m in r.value <==> m in messages && Keepable(m, files)
    decreases |messages|
  {
    if messages == [] then Success([])
    else
      var init := messages[..|messages| - 1];
      var m := messages[|messages| - 1];
      assert messages == init + [m];
      assert forall x :: x in init ==> x in messages;
      match KeepForDownload(init, files)
      case Failure(e) => Failure(e)
      case Success(kept) =>
        if m.fileUniqueId !in files then Success(kept + [m])
        else match Files.IsDownloadStatus(files[m.fileUniqueId], Some(Files.DownloadStatus.Idle))
          case Failure(e) => assert Unreadable(m, files); Failure(e)
          case Success(idle) => if idle then Success(kept + [m]) else Success(kept)
  }

  /**
   * The filter keeps page order: on a split page it is the filter of the
   * first part followed by the filter of the second, and the first failure
   * (in page order) is the one reported.
   */
  lemma {:induction false} KeepForDownloadAppend(a: seq<Message>, b: seq<Message>, files: map<string, Files.FileRecord>)
    ensures KeepForDownload(a + b, files) ==
      match KeepForDownload(a, files)
      case Failure(e) => Failure(e)
      case Success(ka) =>
        match KeepForDownload(b, files)
        case Failure(e) => Failure(e)
        case Success(kb) => Success(ka + kb)
    decreases |b|
  {
    if b == [] {
      assert a + b == a;
      if KeepForDownload(a, files).Success? {
        assert KeepForDownload(a, files).value + [] == KeepForDownload(a, files).value;
      }
    } else {
      var init := b[..|b| - 1];
      var m := b[|b| - 1];
      assert (a + b)[..|a + b| - 1] == a + init;
      assert (a + b)[|a + b| - 1] == m;
      KeepForDownloadAppend(a, init, files);
      assert b[..|b| - 1] == init;
      match KeepForDownload(a, files)
      case Failure(_) =>
      case Success(ka) =>
        match KeepForDownload(init, files)
        case Failure(_) =>
        case Success(ki) =>
          assert ka + ki + [m] == ka + (ki + [m]);
    }
  }

  /** The part of the scanner's state a scan changes: the item's cursor, the account's queue, the completion mark. */
  datatype ScanState = ScanState(item: Item, queue: Option<seq<Message>>, complete: bool)

  datatype Step = Continue(next: ScanState) | Stop(last: ScanState)

  /** The request the scan sends for a normalised item. */
  function RequestFor(query: Option<string>, item: Item): (r: SearchRequest)
    requires item.nextFileType.Some?
    ensures r.limit == MaxWaitingLength && r.limit <= 100
    ensures r.query == query && r.chatId == item.chatId
    ensures r.fromMessageId == item.nextFromMessageId && r.fileType == item.nextFileType.value
  {
    SearchRequest(query, item.chatId, item.nextFromMessageId, SearchLimit, item.nextFileType.value)
  }

  /** The scan never moves an item to another chat or changes its rule. */
  predicate SameChat(a: Item, b: Item)
  {
    a.telegramId == b.telegramId && a.chatId == b.chatId && a.rule == b.rule
  }

  /** The state of a scan step, whichever way it ends. */
  function StepState(s: Step): ScanState
  {
    match s
    case Continue(x) => x
    case Stop(x) => x
  }

  /**
   * An empty page: move on to the next type from message 0, or mark the
   * history complete after the last type.
   */
  function OnEmptyPage(st: ScanState, types: seq<string>): (r: Step)
    requires st.item.nextFileType.Some? && |types| > 0
    ensures SameChat(StepState(r).item, st.item) && StepState(r).queue == st.queue
    ensures r.Continue? <==> NextType(types, st.item.nextFileType.value).Some?
    ensures r.Continue? ==> r.next == st.(item := st.item.(nextFileType := NextType(types, st.item.nextFileType.value), nextFromMessageId := 0))
    ensures r.Stop? ==> r.last == st.(complete := true)
  {
    match NextType(types, st.item.nextFileType.value)
    case Some(t) => Continue(st.(item := st.item.(nextFileType := Some(t), nextFromMessageId := 0)))
    case None => Stop(st.(complete := true))
  }

  /**
   * A page with messages: skip it when nothing on it is kept, queue what is
   * kept, or search again from the same cursor when the queue is full.
   */
  function OnMessages(st: ScanState, page: Page, env: Services): (r: Step)
    ensures SameChat(StepState(r).item, st.item) && StepState(r).complete == st.complete
    ensures StepState(r).item == st.item || StepState(r).item == st.item.(nextFromMessageId := page.nextFromMessageId)
    ensures r.Continue? ==> r.next.queue == st.queue
    ensures StepState(r).queue != st.queue ==>
      r.Stop? && StepState(r).queue.Some? && |st.queue.GetOr([])| <= |StepState(r).queue.value| &&
      StepState(r).queue.value[..|st.queue.GetOr([])|] == st.queue.GetOr([])
    ensures StepState(r).item != st.item ==>
      env.files.Some? && KeepForDownload(page.messages, env.files.value).Success? &&
      (|KeepForDownload(page.messages, env.files.value).value| == 0 ||
       AddWaiting(st.queue, KeepForDownload(page.messages, env.files.value).value, false, env.unique).Some?)
    ensures env.files.None? || KeepForDownload(page.messages, env.files.value).Failure? ==> r == Stop(st)
    ensures env.files.Some? && KeepForDownload(page.messages, env.files.value).Success? ==>
      var kept := KeepForDownload(page.messages, env.files.value).value;
      var added := AddWaiting(st.queue, kept, false, env.unique);
      (|kept| == 0 ==> r == Continue(st.(item := st.item.(nextFromMessageId := page.nextFromMessageId)))) &&
      (|kept| > 0 && added.Some? ==>
        r == Stop(ScanState(st.item.(nextFromMessageId := page.nextFromMessageId), added, st.complete))) &&
      (|kept| > 0 && added.None? ==> r == Continue(st))
  {
    if env.files.None? then Stop(st)
    else match KeepForDownload(page.messages, env.files.value)
      case Failure(_) => Stop(st)
      case Success(kept) =>
        if |kept| == 0 then Continue(st.(item := st.item.(nextFromMessageId := page.nextFromMessageId)))
        else match AddWaiting(st.queue, kept, false, env.unique)
          case Some(q) => Stop(ScanState(st.item.(nextFromMessageId := page.nextFromMessageId), Some(q), st.complete))
          case None => Continue(st)
  }

  /**
   * One call of `addHistoryMessage` after its timeout check: either the
   * scan stops with a state, or it recurses with a new one.
   */
  function ScanStep(st: ScanState, limit: int, env: Services): (r: Step)
    ensures SameChat(StepState(r).item, st.item)
    ensures r.Continue? ==> r.next.queue == st.queue && r.next.complete == st.complete
    ensures StepState(r).queue == st.queue ||
      (StepState(r).queue.Some? && |st.queue.GetOr([])| <= |StepState(r).queue.value| &&
       StepState(r).queue.value[..|st.queue.GetOr([])|] == st.queue.GetOr([]))
    ensures StepState(r).complete && !st.complete ==>
      StepState(r).item.nextFileType.Some? &&
      NextType(RuleFileTypes(StepState(r).item.rule), StepState(r).item.nextFileType.value).None?
  {
    if ExceedsLimit(limit, env.downloading, st.queue) then Stop(st)
    else
      var (rule, item) := HandleRule(st.item);
      var st1 := st.(item := item);
      match env.search(RequestFor(rule.query, item))
      case None => Stop(st1)
      case Some(page) =>
        if |page.messages| == 0 then OnEmptyPage(st1, rule.fileTypes)
        else OnMessages(st1, page, env)
  }

  /** `addHistoryMessage` with `fuel` calls left before the scan times out. */
  function Scan(fuel: nat, st: ScanState, limit: int, env: Services): (r: ScanState)
    ensures fuel == 0 ==> r == st
    ensures SameChat(r.item, st.item)
    decreases fuel
  {
    if fuel == 0 then st
    else match ScanStep(st, limit, env)
      case Stop(s) => s
      case Continue(s) => Scan(fuel - 1, s, limit, env)
  }

  /** An empty page moves the cursor to the start of the next type and scans on. */
  lemma EmptyPageAdvancesType(st: ScanState, limit: int, env: Services, page: Page)
    requires !ExceedsLimit(limit, env.downloading, st.queue)
    requires var (rule, item) := HandleRule(st.item);
      env.search(RequestFor(rule.query, item)) == Some(page) && |page.messages| == 0 &&
      NextType(rule.fileTypes, item.nextFileType.value).Some?
    ensures var (rule, item) := HandleRule(st.item);
      ScanStep(st, limit, env) == Continue(st.(item := item.(
        nextFileType := NextType(rule.fileTypes, item.nextFileType.value), nextFromMessageId := 0)))
  {
  }

  /** An empty page on the last type completes the history scan and stops it. */
  lemma LastTypeCompletes(st: ScanState, limit: int, env: Services, page: Page)
    requires !ExceedsLimit(limit, env.downloading, st.queue)
    requires var (rule, item) := HandleRule(st.item);
      env.search(RequestFor(rule.query, item)) == Some(page) && |page.messages| == 0 &&
      IndexOf(rule.fileTypes, item.nextFileType.value) == |rule.fileTypes| - 1
    ensures ScanStep(st, limit, env) == Stop(ScanState(HandleRule(st.item).1, st.queue, true))
  {
  }

  /**
   * On a non-empty page the message cursor moves to the page's next cursor
   * exactly when nothing on the page is kept or the kept messages were
   * queued; otherwise it stays where it was.
   */
  lemma CursorAdvancesOnlyOnSkipOrEnqueue(st: ScanState, limit: int, env: Services, page: Page)
    requires !ExceedsLimit(limit, env.downloading, st.queue)
    requires env.search(RequestFor(HandleRule(st.item).0.query, HandleRule(st.item).1)) == Some(page)
    requires |page.messages| > 0
    ensures var item := HandleRule(st.item).1;
      var after := StepState(ScanStep(st, limit, env)).item;
      after == item || after == item.(nextFromMessageId := page.nextFromMessageId)
    ensures var item := HandleRule(st.item).1;
      var after := StepState(ScanStep(st, limit, env)).item;
      after.nextFromMessageId != item.nextFromMessageId ==>
        env.files.Some? && KeepForDownload(page.messages, env.files.value).Success? &&
        var kept := KeepForDownload(page.messages, env.files.value).value;
        |kept| == 0 || AddWaiting(st.queue, kept, false, env.unique).Some?
  {
  }

  /**
   * A page whose kept messages fit the queue ends the scan: they are
   * appended to the account's queue in page order and the cursor moves
   * past the page.
   */
  lemma KeptPageIsQueued(st: ScanState, limit: int, env: Services, page: Page, files: map<string, Files.FileRecord>)
    requires !ExceedsLimit(limit, env.downloading, st.queue)
    requires env.search(RequestFor(HandleRule(st.item).0.query, HandleRule(st.item).1)) == Some(page)
    requires |page.messages| > 0 && env.files == Some(files)
    requires KeepForDownload(page.messages, files).Success? && |KeepForDownload(page.messages, files).value| > 0
    requires |st.queue.GetOr([])| <= MaxWaitingLength
    ensures var kept := KeepForDownload(page.messages, files).value;
      var q := st.queue.GetOr([]);
      ScanStep(st, limit, env) ==
        Stop(ScanState(HandleRule(st.item).1.(nextFromMessageId := page.nextFromMessageId), Some(q + env.unique(kept)), st.complete))
  {
  }

  /**
   * A page whose kept messages do not fit a full queue leaves the cursor
   * where it was and searches again.
   */
  lemma FullQueueSearchesAgain(st: ScanState, limit: int, env: Services, page: Page, files: map<string, Files.FileRecord>)
    requires !ExceedsLimit(limit, env.downloading, st.queue)
    requires env.search(RequestFor(HandleRule(st.item).0.query, HandleRule(st.item).1)) == Some(page)
    requires |page.messages| > 0 && env.files == Some(files)
    requires KeepForDownload(page.messages, files).Success? && |KeepForDownload(page.messages, files).value| > 0
    requires |st.queue.GetOr([])| > MaxWaitingLength
    ensures ScanStep(st, limit, env) == Continue(st.(item := HandleRule(st.item).1))
  {
  }

  /** A scan only ever appends to the account's queue: the old queue stays its prefix. */
  lemma {:induction false} ScanQueueGrowsAtTail(fuel: nat, st: ScanState, limit: int, env: Services)
    ensures var r := Scan(fuel, st, limit, env).queue;
      r == st.queue || (r.Some? && |st.queue.GetOr([])| <= |r.value| && r.value[..|st.queue.GetOr([])|] == st.queue.GetOr([]))
    decreases fuel
  {
    if fuel > 0 && ScanStep(st, limit, env).Continue? {
      ScanQueueGrowsAtTail(fuel - 1, ScanStep(st, limit, env).next, limit, env);
    }
  }

  /** A scan marks the item complete only on the last type of its rule. */
  lemma {:induction false} ScanCompletesOnLastType(fuel: nat, st: ScanState, limit: int, env: Services)
    requires !st.complete
    ensures var r := Scan(fuel, st, limit, env);
      r.complete ==>
        (r.item.nextFileType.Some? && NextType(RuleFileTypes(r.item.rule), r.item.nextFileType.value).None?)
    decreases fuel
  {
    if fuel > 0 {
      var s := ScanStep(st, limit, env);
      if s.Continue? {
        ScanCompletesOnLastType(fuel - 1, s.next, limit, env);
        assert Scan(fuel, st, limit, env) == Scan(fuel - 1, s.next, limit, env);
      } else {
        assert Scan(fuel, st, limit, env) == s.last;
      }
    }
  }

  /** A scan with calls left takes one step, then stops or scans on with one call fewer. */
  lemma ScanAfterStep(fuel: nat, st: ScanState, limit: int, env: Services, running: bool, next: ScanState)
    requires fuel > 0
    requires ScanStep(st, limit, env) == (if running then Continue(next) else Stop(next))
    ensures Scan(fuel, st, limit, env) == (if running then Scan(fuel - 1, next, limit, env) else next)
  {
  }

  /** A scan over the limit, or out of time, changes nothing. */
  lemma ScanStopsWhenExceeded(fuel: nat, st: ScanState, limit: int, env: Services)
    requires fuel == 0 || ExceedsLimit(limit, env.downloading, st.queue)
    ensures Scan(fuel, st, limit, env) == st
  {
  }

  /**
   * A failed search stops the scan: the item keeps the normalised type
   * cursor, and the queue and the completion mark are unchanged.
   */
  lemma SearchFailureStops(st: ScanState, limit: int, env: Services)
    requires !ExceedsLimit(limit, env.downloading, st.queue)
    requires env.search(RequestFor(HandleRule(st.item).0.query, HandleRule(st.item).1)).None?
    ensures ScanStep(st, limit, env) == Stop(st.(item := HandleRule(st.item).1))
  {
  }

  // ---------------------------------------------------------------------
  // The verticle
  // ---------------------------------------------------------------------

  class AutoDownloadVerticle {
    /** telegramId -> messages waiting to be downloaded, oldest first. */
    var waiting: map<int, seq<Message>>
    var limit: int
    var timeLimited: Option<TimeWindow>

    constructor ()
      ensures waiting == map[] && limit == DefaultLimit && timeLimited.None?
    {
      waiting := map[];
      limit := DefaultLimit;
      timeLimited := None;
    }

    function IsDownloadTime(now: int): (b: bool)
      reads this
      ensures timeLimited.None? ==> b
    {
      DownloadTime(timeLimited, now)
    }

    /** A limit update: the new value, or the default when it does not parse. */
    method SetLimit(value: Option<int>)
      modifies this`limit
      ensures limit == value.GetOr(DefaultLimit)
    {
      limit := value.GetOr(DefaultLimit);
    }

    method AddWaitingDownloadMessages(t: int, batch: seq<Message>, force: bool,
                                      unique: seq<Message> -> seq<Message>) returns (added: bool)
      modifies this`waiting
      ensures var r := AddWaiting(Lookup(old(waiting), t), batch, force, unique);
        added == r.Some? && waiting == Store(old(waiting), t, r)
    {
      if |batch| == 0 {
        return false;
      }
      var q := if t in waiting then waiting[t] else [];
      if !force && |q| > MaxWaitingLength {
        return false;
      }
      waiting := waiting[t := q + unique(batch)];
      return true;
    }

    /**
     * One download tick for an account: take up to the free slot count of
     * messages from the head of its queue. The taken messages are returned
     * in the order their downloads are started.
     */
    method Download(t: int, downloading: Option<int>) returns (started: seq<Message>)
      modifies this`waiting
      ensures t !in old(waiting) ==> waiting == old(waiting) && started == []
      ensures t in old(waiting) ==>
        var q := old(waiting)[t];
        var n := PollCount(SurplusSize(limit, downloading), |q|);
        started == q[..n] && waiting == old(waiting)[t := q[n..]]
    {
      started := [];
      if |waiting| == 0 || t !in waiting || |waiting[t]| == 0 {
        return;
      }
      var surplus := SurplusSize(limit, downloading);
      if surplus <= 0 {
        return;
      }
      var n := PollCount(surplus, |waiting[t]|);
      ghost var q := waiting[t];
      var i := 0;
      while i < n
        invariant 0 <= i <= n
        invariant started == q[..i]
        invariant waiting == old(waiting)[t := q[i..]]
      {
        var head := waiting[t][0];
        waiting := waiting[t := waiting[t][1..]];
        started := started + [head];
        assert q[..i + 1] == q[..i] + [q[i]];
        assert q[i..][1..] == q[i + 1..];
        i := i + 1;
      }
      assert q[0..] == q;
    }

    /** The remove listener: drop the removed chats' messages from their accounts' queues. */
    method OnItemsRemoved(removed: seq<Item>)
      modifies this`waiting
      ensures waiting == DropRemoved(old(waiting), removed)
    {
      var i := 0;
      while i < |removed|
        invariant 0 <= i <= |removed|
        invariant waiting == DropRemoved(old(waiting), removed[..i])
      {
        var x := removed[i];
        if x.telegramId in waiting {
          waiting := waiting[x.telegramId := DropChat(waiting[x.telegramId], x.chatId)];
        }
        assert removed[..i + 1][..i] == removed[..i];
        i := i + 1;
      }
      assert removed[..i] == removed;
    }

    /**
     * A new message in an enabled chat of an authorised account is queued,
     * bypassing the length cap; `fetched` is the message as fetched, None
     * when fetching it fails.
     */
    method OnNewMessage(t: int, c: int, enabled: seq<Item>, accounts: map<int, bool>,
                        fetched: Option<Message>, unique: seq<Message> -> seq<Message>)
      modifies this`waiting
      ensures HasKey(enabled, t, c) && Authorized(accounts, t) && fetched.Some? ==>
        waiting == old(waiting)[t := Lookup(old(waiting), t).GetOr([]) + unique([fetched.value])]
      ensures !(HasKey(enabled, t, c) && Authorized(accounts, t) && fetched.Some?) ==> waiting == old(waiting)
    {
      if HasKey(enabled, t, c) && Authorized(accounts, t) && fetched.Some? {
        var _ := AddWaitingDownloadMessages(t, [fetched.value], true, unique);
      }
    }

    /** One call of `addHistoryMessage` past its timeout check, on the account's live queue. */
    method HistoryStep(auto: Item, complete: bool, env: Services) returns (item: Item, done: bool, running: bool)
      modifies this`waiting
      ensures var s := ScanStep(ScanState(auto, Lookup(old(waiting), auto.telegramId), complete), limit, env);
        s == (if running then Continue(ScanState(item, Lookup(waiting, auto.telegramId), done))
              else Stop(ScanState(item, Lookup(waiting, auto.telegramId), done)))
      ensures waiting == Store(old(waiting), auto.telegramId, Lookup(waiting, auto.telegramId))
      ensures item.telegramId == auto.telegramId
    {
      var t := auto.telegramId;
      ghost var st := ScanState(auto, Lookup(waiting, t), complete);
      item, done, running := auto, complete, false;
      var q := if t in waiting then Some(waiting[t]) else None;
      if ExceedsLimit(limit, env.downloading, q) {
        return;
      }
      var rule;
      rule, item := HandleRule(auto).0, HandleRule(auto).1;
      var found := env.search(RequestFor(rule.query, item));
      if found.None? {
        return;
      }
      var page := found.value;
      ghost var st1 := st.(item := item);
      assert ScanStep(st, limit, env) == (if |page.messages| == 0 then OnEmptyPage(st1, rule.fileTypes) else OnMessages(st1, page, env));
      if |page.messages| == 0 {
        var next := NextType(rule.fileTypes, item.nextFileType.value);
        if next.Some? {
          item := item.(nextFileType := next, nextFromMessageId := 0);
          running := true;
        } else {
          done := true;
        }
        return;
      }
      if env.files.None? {
        return;
      }
      var kept := KeepForDownload(page.messages, env.files.value);
      if kept.Failure? {
        return;
      }
      if |kept.value| == 0 {
        item := item.(nextFromMessageId := page.nextFromMessageId);
        running := true;
        return;
      }
      var added := AddWaitingDownloadMessages(t, kept.value, false, env.unique);
      if added {
        item := item.(nextFromMessageId := page.nextFromMessageId);
      } else {
        running := true;
      }
    }

    /**
     * `addHistoryMessage`: scan the chat's history from the item's cursor,
     * page by page, until a page is queued, the limit is reached, the
     * history is complete, a lookup fails or `fuel` calls have been made.
     * Returns the item with its moved cursor and whether it completed.
     */
    method AddHistoryMessage(auto: Item, fuel: nat, env: Services) returns (item: Item, complete: bool)
      modifies this`waiting
      ensures var r := Scan(fuel, ScanState(auto, Lookup(old(waiting), auto.telegramId), false), limit, env);
        item == r.item && complete == r.complete && waiting == Store(old(waiting), auto.telegramId, r.queue)
    {
      var t := auto.telegramId;
      ghost var goal := Scan(fuel, ScanState(auto, Lookup(waiting, t), false), limit, env);
      item, complete := auto, false;
      var f := fuel;
      var running := true;
      while running && f > 0
        invariant item.telegramId == t
        invariant waiting == Store(old(waiting), t, Lookup(waiting, t))
        invariant running ==> Scan(f, ScanState(item, Lookup(waiting, t), complete), limit, env) == goal
        invariant !running ==> ScanState(item, Lookup(waiting, t), complete) == goal
      {
        ghost var before := waiting;
        ghost var st := ScanState(item, Lookup(waiting, t), complete);
        item, complete, running := HistoryStep(item, complete, env);
        ghost var now := ScanState(item, Lookup(waiting, t), complete);
        ScanAfterStep(f, st, limit, env, running, now);
        StoreAgain(old(waiting), before, waiting, t);
        f := f - 1;
      }
    }
  }
}
