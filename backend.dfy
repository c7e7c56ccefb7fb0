/**
 * The server's global state and its entry points: the two tenant queues,
 * the two send-time trackers, the shared activity log, the `send` route
 * that splits a submission into tasks, the worker pairing of each queue
 * with its configuration and tracker, and the log snapshot route.
 */
module Backend {
  import opened Text
  import opened RateLimit
  import opened ActivityLogs
  import opened Dispatcher

  datatype Tenant = Talrn | Leaders

  /** Brands that differ only in letter case go to the same queue. */
  lemma RouteIgnoresCase(a: string, b: string)
    requires |a| == |b|
    requires forall i :: 0 <= i < |a| ==> LowerChar(a[i]) == LowerChar(b[i])
    ensures (Lower(a) == "leadersfirst") == (Lower(b) == "leadersfirst")
  {
    LowerIgnoresCase(a, b);
  }

  function ConfigOf(t: Tenant): Config {
    match t
    case Talrn => TalrnConfig
    case Leaders => LeadersConfig
  }

  /** The recipients of the entries `parts`: stripped, empty ones dropped, in order. */
  function Entries(parts: seq<string>): (rs: seq<string>)
    ensures |rs| <= |parts|
    ensures forall k :: 0 <= k < |rs| ==> rs[k] != []
    decreases |parts|
  {
    if parts == [] then []
    else
      var p := Strip(parts[|parts| - 1]);
      Entries(parts[..|parts| - 1]) + (if p != [] then [p] else [])
  }

  lemma EntriesSnoc(parts: seq<string>, i: nat)
    requires i < |parts|
    ensures Entries(parts[..i + 1])
         == Entries(parts[..i]) + (if Strip(parts[i]) != [] then [Strip(parts[i])] else [])
  {
    assert parts[..i + 1][..i] == parts[..i];
  }

  /** The recipients `send` queues a task for. */
  function Recipients(recipients: string): (rs: seq<string>)
    ensures forall k :: 0 <= k < |rs| ==> rs[k] != []
  {
    Entries(Split(recipients, ','))
  }

  /** The number of entries whose stripped form is not empty, counted from the front. */
  function CountNonBlank(parts: seq<string>): (n: nat)
    ensures n <= |parts|
    decreases |parts|
  {
    if parts == [] then 0
    else (if Strip(parts[0]) != [] then 1 else 0) + CountNonBlank(parts[1..])
  }

  lemma {:induction false} CountNonBlankSnoc(parts: seq<string>, p: string)
    ensures CountNonBlank(parts + [p]) == CountNonBlank(parts) + (if Strip(p) != [] then 1 else 0)
    decreases |parts|
  {
    if parts != [] {
      assert (parts + [p])[1..] == parts[1..] + [p];
      CountNonBlankSnoc(parts[1..], p);
    } else {
      assert ([] + [p])[1..] == [];
    }
  }

  /** One recipient per non-blank entry: as many as there are non-blank entries. */
  lemma {:induction false} EntriesCount(parts: seq<string>)
    ensures |Entries(parts)| == CountNonBlank(parts)
    decreases |parts|
  {
    if parts != [] {
      var init := parts[..|parts| - 1];
      EntriesCount(init);
      CountNonBlankSnoc(init, parts[|parts| - 1]);
      assert init + [parts[|parts| - 1]] == parts;
    }
  }

  /**
   * `idx` lists, in increasing order, the entries the recipients `rs` come
   * from, and every entry with a non-empty stripped form is among them.
   */
  ghost predicate IndexedBy(rs: seq<string>, parts: seq<string>, idx: seq<nat>) {
    |idx| == |rs| &&
    (forall k :: 0 <= k < |idx| ==> idx[k] < |parts| && rs[k] == Strip(parts[idx[k]])) &&
    (forall k, l :: 0 <= k < l < |idx| ==> idx[k] < idx[l]) &&
    (forall i :: 0 <= i < |parts| && Strip(parts[i]) != [] ==> i in idx)
  }

  lemma IndexedByBlank(rs: seq<string>, parts: seq<string>, idx: seq<nat>, p: string)
    requires IndexedBy(rs, parts, idx) && Strip(p) == []
    ensures IndexedBy(rs, parts + [p], idx)
  {
    var ps := parts + [p];
    forall k | 0 <= k < |idx| ensures idx[k] < |ps| && rs[k] == Strip(ps[idx[k]]) {
      assert ps[idx[k]] == parts[idx[k]];
    }
    forall i | 0 <= i < |ps| && Strip(ps[i]) != [] ensures i in idx {
      assert ps[i] == parts[i];
    }
  }

  lemma IndexedByKept(rs: seq<string>, parts: seq<string>, idx: seq<nat>, p: string)
    requires IndexedBy(rs, parts, idx) && Strip(p) != []
    ensures IndexedBy(rs + [Strip(p)], parts + [p], idx + [|parts|])
  {
    var ps, rs', idx' := parts + [p], rs + [Strip(p)], idx + [|parts|];
    forall k | 0 <= k < |idx'| ensures idx'[k] < |ps| && rs'[k] == Strip(ps[idx'[k]]) {
      if k < |idx| {
        assert idx'[k] == idx[k] && ps[idx[k]] == parts[idx[k]] && rs'[k] == rs[k];
      }
    }
    forall k, l | 0 <= k < l < |idx'| ensures idx'[k] < idx'[l] {
      assert idx'[k] == idx[k];
    }
    forall i | 0 <= i < |ps| && Strip(ps[i]) != [] ensures i in idx' {
      if i < |parts| {
        assert ps[i] == parts[i];
        var j :| 0 <= j < |idx| && idx[j] == i;
        assert idx'[j] == i;
      } else {
        assert idx'[|idx|] == i;
      }
    }
  }

  /**
   * The k-th recipient is the stripped form of entry `idx[k]`; the indices
   * increase; and every entry whose stripped form is non-empty is among them.
   */
  lemma {:induction false} EntriesIndices(parts: seq<string>) returns (idx: seq<nat>)
    ensures IndexedBy(Entries(parts), parts, idx)
    decreases |parts|
  {
    if parts == [] {
      idx := [];
    } else {
      var n := |parts| - 1;
      var init := parts[..n];
      var idx0 := EntriesIndices(init);
      assert init + [parts[n]] == parts;
      if Strip(parts[n]) != [] {
        IndexedByKept(Entries(init), init, idx0, parts[n]);
        idx := idx0 + [n];
      } else {
        IndexedByBlank(Entries(init), init, idx0, parts[n]);
        idx := idx0;
      }
    }
  }

  /** Every entry is already stripped. */
  lemma {:induction false} EntriesStripped(parts: seq<string>)
    ensures forall k :: 0 <= k < |Entries(parts)| ==> Strip(Entries(parts)[k]) == Entries(parts)[k]
    decreases |parts|
  {
    if parts != [] {
      EntriesStripped(parts[..|parts| - 1]);
      StripIdempotent(parts[|parts| - 1]);
    }
  }

  /** Every recipient is stripped, non-empty and free of commas. */
  lemma RecipientsClean(recipients: string)
    ensures forall k :: 0 <= k < |Recipients(recipients)| ==>
      Strip(Recipients(recipients)[k]) == Recipients(recipients)[k] && ',' !in Recipients(recipients)[k]
  {
    EntriesStripped(Split(recipients, ','));
    EntriesOfCommaFree(Split(recipients, ','));
  }

  /** Stripping never introduces a character, so entries stay comma-free. */
  lemma {:induction false} EntriesOfCommaFree(parts: seq<string>)
    requires forall k :: 0 <= k < |parts| ==> ',' !in parts[k]
    ensures forall k :: 0 <= k < |Entries(parts)| ==> ',' !in Entries(parts)[k]
    decreases |parts|
  {
    if parts != [] {
      EntriesOfCommaFree(parts[..|parts| - 1]);
      StripKeepsOut(parts[|parts| - 1], ',');
    }
  }

  /** A recipient list made only of commas and white space queues nothing. */
  lemma {:induction false} BlankEntries(parts: seq<string>)
    requires forall k :: 0 <= k < |parts| ==> AllSpace(parts[k])
    ensures Entries(parts) == []
    decreases |parts|
  {
    if parts != [] {
      BlankEntries(parts[..|parts| - 1]);
      StripEmptyIff(parts[|parts| - 1]);
    }
  }

  lemma EmptyRecipients()
    ensures Recipients("") == []
  {
    assert Split("", ',') == [""];
    BlankEntries([""]);
  }

  lemma SplitExample()
    ensures Split("a, ,a", ',') == ["a", " ", "a"]
  {
    SplitPiece("a", ',', " ,a");
    SplitPiece(" ", ',', "a");
    SplitPiece("a", ',', "");
    assert "a, ,a" == "a" + [','] + " ,a";
    assert " ,a" == " " + [','] + "a";
  }

  lemma EntriesExample()
    ensures Entries(["a", " ", "a"]) == ["a", "a"]
  {
    var parts := ["a", " ", "a"];
    assert TrimStart(" ") == [];
    assert Strip(" ") == [];
    var a := "a";
    assert !IsSpace(a[0]) && !IsSpace(a[|a| - 1]);
    assert TrimStart(a) == a;
    assert TrimEnd(a) == a;
    assert Strip("a") == "a";
    assert parts[..2][..1] == ["a"];
    assert parts[..2] == ["a", " "];
    assert Entries(["a"]) == ["a"];
    assert Entries(["a", " "]) == ["a"];
  }

  /** Every entry with a non-blank stripped form yields one task, duplicates included. */
  lemma RecipientsExample()
    ensures Recipients("a, ,a") == ["a", "a"]
  {
    SplitExample();
    EntriesExample();
  }

  function TasksFor(rs: seq<string>, subject: string, body: Option<string>, isHtml: bool,
                    replyTo: Option<string>, brand: string): (ts: seq<Task>)
    ensures |ts| == |rs|
    decreases |rs|
  {
    if rs == [] then []
    else TasksFor(rs[..|rs| - 1], subject, body, isHtml, replyTo, brand)
         + [Task(rs[|rs| - 1], subject, body, isHtml, replyTo, brand)]
  }

  /** One task per recipient, in order, each carrying the submission's fields. */
  lemma {:induction false} TasksForEach(rs: seq<string>, subject: string, body: Option<string>, isHtml: bool,
                                        replyTo: Option<string>, brand: string)
    ensures forall k :: 0 <= k < |rs| ==>
      TasksFor(rs, subject, body, isHtml, replyTo, brand)[k] == Task(rs[k], subject, body, isHtml, replyTo, brand)
    decreases |rs|
  {
    if rs != [] {
      TasksForEach(rs[..|rs| - 1], subject, body, isHtml, replyTo, brand);
    }
  }

  lemma TasksForSnoc(rs: seq<string>, r: string, subject: string, body: Option<string>, isHtml: bool,
                     replyTo: Option<string>, brand: string)
    ensures TasksFor(rs + [r], subject, body, isHtml, replyTo, brand)
         == TasksFor(rs, subject, body, isHtml, replyTo, brand) + [Task(r, subject, body, isHtml, replyTo, brand)]
  {
    assert (rs + [r])[..|rs|] == rs;
  }

  function Other(t: Tenant): Tenant {
    if t == Leaders then Talrn else Leaders
  }

  /** Appending one task after a block of tasks is appending it to the block. */
  lemma AppendTaskAssoc(q: seq<Task>, block: seq<Task>, task: Task)
    ensures (q + block) + [task] == q + (block + [task])
  {
  }

  /**
   * The loop of `send` under the queue lock: one task per comma-separated
   * entry whose stripped form is not empty, appended in order to `queue`.
   */
  method EnqueueAll(queue: TaskQueue, recipients: string, subject: string, body: Option<string>,
                    isHtml: bool, replyTo: Option<string>, brand: string)
    returns (count: nat)
    modifies queue
    ensures var added := TasksFor(Recipients(recipients), subject, body, isHtml, replyTo, brand);
      queue.tasks == old(queue.tasks) + added && count == |added|
  {
    var parts := Split(recipients, ',');
    ghost var start := queue.tasks;
    count := 0;
    for i := 0 to |parts|
      invariant queue.tasks == start + TasksFor(Entries(parts[..i]), subject, body, isHtml, replyTo, brand)
      invariant count == |Entries(parts[..i])|
    {
      ghost var done := Entries(parts[..i]);
      ghost var before := TasksFor(done, subject, body, isHtml, replyTo, brand);
      EntriesSnoc(parts, i);
      var r := Strip(parts[i]);
      if r != [] {
        var task := Task(r, subject, body, isHtml, replyTo, brand);
        TasksForSnoc(done, r, subject, body, isHtml, replyTo, brand);
        AppendTaskAssoc(start, before, task);
        queue.tasks := queue.tasks + [task];
        assert queue.tasks == start + TasksFor(done + [r], subject, body, isHtml, replyTo, brand);
        count := count + 1;
      } else {
        assert Entries(parts[..i + 1]) == done;
      }
    }
    assert parts[..|parts|] == parts;
  }

  /** The global state of the server process. */
  class Server {
    const talrnQueue: TaskQueue
    const leadersQueue: TaskQueue
    const talrnTimes: SendTimes
    const leadersTimes: SendTimes
    const log: ActivityLog

    ghost predicate Valid()
      reads log
    {
      talrnQueue != leadersQueue && talrnTimes != leadersTimes && log.Valid()
    }

    function QueueOf(t: Tenant): TaskQueue {
      match t
      case Talrn => talrnQueue
      case Leaders => leadersQueue
    }

    function TimesOf(t: Tenant): SendTimes {
      match t
      case Talrn => talrnTimes
      case Leaders => leadersTimes
    }

    /** Start-up: empty queues and trackers, and the start-up line in the log. */
    constructor (time: string)
      ensures Valid()
      ensures talrnQueue.tasks == [] && leadersQueue.tasks == []
      ensures talrnTimes.times == [] && leadersTimes.times == []
      ensures log.entries == [LogEntry(time, "System started. Workers ready.", Info, "System")]
      ensures fresh(talrnQueue) && fresh(leadersQueue) && fresh(talrnTimes) && fresh(leadersTimes) && fresh(log)
    {
      talrnQueue := new TaskQueue();
      leadersQueue := new TaskQueue();
      talrnTimes := new SendTimes();
      leadersTimes := new SendTimes();
      var l := new ActivityLog();
      l.Add(time, "System started. Workers ready.", Info, "System");
      log := l;
    }

    /**
     * `send`: one task per comma-separated recipient whose stripped form is
     * not empty, appended in order to the queue the brand selects; the
     * count goes into the log line and the reply.
     */
    method Send(recipients: string, subject: string, body: Option<string>, isHtml: bool,
                replyTo: Option<string>, brand: string, time: string)
      returns (count: nat, reply: string)
      requires Valid()
      modifies talrnQueue, leadersQueue, log
      ensures Valid()
      ensures var added := TasksFor(Recipients(recipients), subject, body, isHtml, replyTo, brand);
        count == |added| &&
        (Lower(brand) == "leadersfirst" ==>
          leadersQueue.tasks == old(leadersQueue.tasks) + added && talrnQueue.tasks == old(talrnQueue.tasks)) &&
        (Lower(brand) != "leadersfirst" ==>
          talrnQueue.tasks == old(talrnQueue.tasks) + added && leadersQueue.tasks == old(leadersQueue.tasks))
      ensures log.entries == LogAppend(old(log.entries),
                                       LogEntry(time, "Queued " + NatToString(count) + " emails", Info, brand))
      ensures reply == "Queued " + NatToString(count)
    {
      var queue := if Lower(brand) == "leadersfirst" then leadersQueue else talrnQueue;
      count := EnqueueAll(queue, recipients, subject, body, isHtml, replyTo, brand);
      log.Add(time, "Queued " + NatToString(count) + " emails", Info, brand);
      reply := "Queued " + NatToString(count);
    }

    /** One iteration of the worker of `tenant`, on that tenant's queue and tracker. */
    method Work(tenant: Tenant, now: nat, time: string, logo: Logo, delivery: Delivery)
      returns (step: Step)
      requires Valid()
      modifies QueueOf(tenant), TimesOf(tenant), log
      ensures Valid()
      ensures QueueOf(Other(tenant)).tasks == old(QueueOf(Other(tenant)).tasks)
      ensures TimesOf(Other(tenant)).times == old(TimesOf(Other(tenant)).times)
      ensures old(QueueOf(tenant).tasks) == [] ==>
        step == Idle && QueueOf(tenant).tasks == [] && log.entries == old(log.entries) &&
        TimesOf(tenant).times == old(TimesOf(tenant).times)
      ensures old(QueueOf(tenant).tasks) != [] ==>
        var r := Dispatch(old(QueueOf(tenant).tasks)[0], ConfigOf(tenant), old(TimesOf(tenant).times),
                          now, logo, delivery);
        TimesOf(tenant).times == r.times &&
        log.entries == LogAppendAll(old(log.entries), Stamp(time, ConfigOf(tenant).name, r.events)) &&
        (r.handled ==> step == Removed && QueueOf(tenant).tasks == old(QueueOf(tenant).tasks)[1..]) &&
        (!r.handled ==> step == Deferred && QueueOf(tenant).tasks == old(QueueOf(tenant).tasks))
    {
      step := WorkerStep(log, QueueOf(tenant), ConfigOf(tenant), TimesOf(tenant), now, time, logo, delivery);
    }

    /** `get_logs`: a copy of the activity log, oldest first. */
    method GetLogs() returns (snapshot: seq<LogEntry>)
      requires Valid()
      ensures snapshot == log.entries && |snapshot| <= Capacity
    {
      snapshot := log.entries;
    }
  }
}
