/**
 * `process_email` and the `worker` loop: a worker peeks at the head of its
 * tenant's queue, asks the rate limiter, builds and hands the message to the
 * mailer, records the send on success, logs the outcome, and removes the
 * task unless the rate limiter turned it away.
 */
module Dispatcher {
  import opened Text
  import opened RateLimit
  import opened ActivityLogs

  datatype Option<T> = None | Some(value: T)

  /**
   * A queued send request as `send` builds it; `body` is `None` when the
   * submission had no `email_body`.
   */
  datatype Task = Task(recipient: string, subject: string, body: Option<string>,
                       isHtml: bool, replyTo: Option<string>, brand: string)

  /** The part of a tenant's configuration that the dispatch logic reads. */
  datatype Config = Config(name: string, user: string, logo: string, cid: string,
                           limit: nat, window: nat)

  const TalrnConfig := Config("Talrn", "hire@b.trytalrn.com", "Talrn logo.png",
                              "talrn_logo", 150, 3600)
  const LeadersConfig := Config("Leadersfirst", "reach@t.tryleadersfirst.com", "leaderslogo.png",
                                "leaders_logo", 150, 3600)

  /** The tenant's logo file as the worker finds it. */
  datatype Logo = Present | Missing | Unreadable(error: string)

  /** What the SMTP session did with the message. */
  datatype Delivery = Delivered | Refused(error: string)

  /** The message handed to the mailer, without its MIME structure. */
  datatype Message = Message(subject: string, fromName: string, fromAddress: string, to: string,
                             replyTo: Option<string>, html: string, isHtml: bool,
                             inlineLogo: Option<string>)

  /** What a log line reports, before it is rendered as text. */
  datatype Notice =
    | RateLimited(limit: nat)
    | Sent(preview: string, recipient: string)
    | Failed(preview: string, recipient: string, error: string)
    | LogoMissing(file: string)
    | LogoError(error: string)

  /** A log line before it is stamped with the clock and the brand. */
  datatype Event = Event(notice: Notice, kind: Severity)

  /** Everything one `process_email` call decides. */
  datatype Outcome = Outcome(handled: bool, times: seq<nat>, events: seq<Event>,
                             message: Option<Message>)

  /** The work queue of one tenant; the source passes the list by reference. */
  class TaskQueue {
    var tasks: seq<Task>

    constructor ()
      ensures tasks == []
    {
      tasks := [];
    }
  }

  const PreviewLength: nat := 20

  /** The subject as it appears in log lines. */
  function SubjectPreview(subject: string): (p: string)
    ensures |subject| <= PreviewLength ==> p == subject
    ensures |subject| > PreviewLength ==> p == subject[..PreviewLength] + "..."
    ensures |p| <= PreviewLength + 3
    ensures StartsWith(subject, p[..if |p| < PreviewLength then |p| else PreviewLength])
  {
    if |subject| > PreviewLength then subject[..PreviewLength] + "..." else subject
  }

  const TalrnCidRef := "cid:talrn_logo"
  const LeadersCidRef := "cid:leaders_logo"

  /**
   * Points the other tenant's inline-logo reference at this tenant's logo:
   * afterwards a Leadersfirst body holds no Talrn reference and a Talrn body
   * no Leadersfirst reference.
   */
  function RewriteCids(config: Config, body: string): (html: string)
    ensures config == LeadersConfig ==> !Contains(html, TalrnCidRef)
    ensures config == TalrnConfig ==> !Contains(html, LeadersCidRef)
    ensures config.name != "Leadersfirst" && config.name != "Talrn" ==> html == body
  {
    if config.name == "Leadersfirst" then
      TalrnToLeadersClears();
      ReplaceClears(body, TalrnCidRef, "cid:" + LeadersConfig.cid);
      Replace(body, TalrnCidRef, "cid:" + config.cid)
    else if config.name == "Talrn" then
      LeadersToTalrnClears();
      ReplaceClears(body, LeadersCidRef, "cid:" + TalrnConfig.cid);
      Replace(body, LeadersCidRef, "cid:" + config.cid)
    else body
  }

  /** The Leadersfirst logo reference is its configured CID behind `cid:`. */
  lemma LeadersCidIsConfigured()
    ensures "cid:" + LeadersConfig.cid == LeadersCidRef
  {
    assert "cid:" + LeadersConfig.cid == ['c', 'i', 'd', ':', 'l', 'e', 'a', 'd', 'e', 'r', 's', '_', 'l', 'o', 'g', 'o'];
  }

  /** The Talrn logo reference is its configured CID behind `cid:`. */
  lemma TalrnCidIsConfigured()
    ensures "cid:" + TalrnConfig.cid == TalrnCidRef
  {
    assert "cid:" + TalrnConfig.cid == ['c', 'i', 'd', ':', 't', 'a', 'l', 'r', 'n', '_', 'l', 'o', 'g', 'o'];
  }


  lemma TalrnToLeadersClears()
    ensures Clears(TalrnCidRef, "cid:" + LeadersConfig.cid)
  {
    var pat, rep := TalrnCidRef, "cid:" + LeadersConfig.cid;
    assert pat == ['c', 'i', 'd', ':', 't', 'a', 'l', 'r', 'n', '_', 'l', 'o', 'g', 'o'];
    assert rep == ['c', 'i', 'd', ':', 'l', 'e', 'a', 'd', 'e', 'r', 's', '_', 'l', 'o', 'g', 'o'];
    assert forall j :: 1 <= j < |pat| ==> pat[j] != pat[0];
    assert forall j :: 1 <= j < |rep| ==> rep[j] != pat[0];
    assert rep[..|pat|][4] != pat[4];
  }

  lemma LeadersToTalrnClears()
    ensures Clears(LeadersCidRef, "cid:" + TalrnConfig.cid)
  {
    var pat, rep := LeadersCidRef, "cid:" + TalrnConfig.cid;
    assert pat == ['c', 'i', 'd', ':', 'l', 'e', 'a', 'd', 'e', 'r', 's', '_', 'l', 'o', 'g', 'o'];
    assert rep == ['c', 'i', 'd', ':', 't', 'a', 'l', 'r', 'n', '_', 'l', 'o', 'g', 'o'];
    assert forall j :: 1 <= j < |pat| ==> pat[j] != pat[0];
    assert forall j :: 1 <= j < |rep| ==> rep[j] != pat[0];
    assert pat[..|rep|][4] != rep[4];
  }

  /** A Leadersfirst body that referred to the Talrn logo now refers to the Leadersfirst logo. */
  lemma LeadersBodyGetsLeadersCid(body: string)
    requires Contains(body, TalrnCidRef)
    ensures Contains(RewriteCids(LeadersConfig, body), LeadersCidRef)
  {
    LeadersCidIsConfigured();
    ReplaceProduces(body, TalrnCidRef, LeadersCidRef);
  }

  /** A Talrn body that referred to the Leadersfirst logo now refers to the Talrn logo. */
  lemma TalrnBodyGetsTalrnCid(body: string)
    requires Contains(body, LeadersCidRef)
    ensures Contains(RewriteCids(TalrnConfig, body), TalrnCidRef)
  {
    TalrnCidIsConfigured();
    ReplaceProduces(body, LeadersCidRef, TalrnCidRef);
  }

  /** A body that holds no reference to the other tenant's logo goes out unchanged. */
  lemma RewriteKeepsOwnBody(config: Config, body: string)
    requires config == TalrnConfig || config == LeadersConfig
    requires !Contains(body, TalrnCidRef) && !Contains(body, LeadersCidRef)
    ensures RewriteCids(config, body) == body
  {
    if config == TalrnConfig {
      ReplaceAbsent(body, LeadersCidRef, "cid:" + config.cid);
    } else {
      ReplaceAbsent(body, TalrnCidRef, "cid:" + config.cid);
    }
  }

  /** The text of a log line, as the f-strings of `process_email` render it. */
  function NoticeText(n: Notice): string {
    match n
    case RateLimited(limit) => "Rate limit hit (" + NatToString(limit) + "/hr). Pausing..."
    case Sent(preview, recipient) => "Sent \"" + preview + "\" to " + recipient
    case Failed(preview, recipient, error) => "Failed \"" + preview + "\" to " + recipient + ": " + error
    case LogoMissing(file) => "Logo file missing: " + file
    case LogoError(error) => "Logo error: " + error
  }

  /** Both tenants' limit, 150, renders as "150". */
  lemma LimitRendering()
    ensures TalrnConfig.limit == LeadersConfig.limit == 150
    ensures NatToString(150) == "150"
  {
    assert NatToString(1) == ['1'];
    assert NatToString(15) == NatToString(1) + [DigitChar(5)];
    assert NatToString(150) == NatToString(15) + [DigitChar(0)];
  }

  /** The rate-limit warning of either tenant reads "Rate limit hit (150/hr). Pausing...". */
  lemma RateLimitedText()
    ensures NoticeText(RateLimited(TalrnConfig.limit)) == "Rate limit hit (150/hr). Pausing..."
    ensures NoticeText(RateLimited(LeadersConfig.limit)) == "Rate limit hit (150/hr). Pausing..."
  {
    LimitRendering();
  }


  /** What Python reports when `replace` is called on a missing body. */
  const NoBodyError := "'NoneType' object has no attribute 'replace'"

  /** The warnings the logo attachment step logs. */
  function LogoEvents(config: Config, logo: Logo): (es: seq<Event>)
    ensures |es| == if logo.Present? then 0 else 1
    ensures forall i :: 0 <= i < |es| ==> es[i].kind == Warning
  {
    match logo
    case Present => []
    case Missing => [Event(LogoMissing(config.logo), Warning)]
    case Unreadable(e) => [Event(LogoError(e), Warning)]
  }

  /** The message built for `task`: the full subject and the rewritten body. */
  function Render(task: Task, config: Config, html: string, logo: Logo): Message {
    Message(task.subject, config.name, config.user, task.recipient,
            if task.replyTo.Some? && task.replyTo.value != "" then task.replyTo else None,
            html, task.isHtml, if logo.Present? then Some(config.cid) else None)
  }

  /** Whether the call gets as far as a delivered message. */
  predicate Delivers(task: Task, config: Config, times: seq<nat>, now: nat, delivery: Delivery) {
    Admits(times, config.limit, config.window, now) && task.body.Some? && delivery.Delivered?
  }

  /**
   * The part of `process_email` after the rate limiter admitted the task:
   * build the message, hand it to the mailer, record the send on success.
   * `kept` is the already purged tracker.
   */
  function Handle(task: Task, config: Config, kept: seq<nat>, now: nat, logo: Logo,
                  delivery: Delivery): (r: Outcome)
    ensures r.handled
    ensures r.times == if task.body.Some? && delivery.Delivered? then kept + [now] else kept
    ensures r.message.Some? <==> task.body.Some?
  {
    var preview := SubjectPreview(task.subject);
    match task.body
    case None =>
      Outcome(true, kept, [Event(Failed(preview, task.recipient, NoBodyError), Error)], None)
    case Some(body) =>
      var msg := Render(task, config, RewriteCids(config, body), logo);
      var warnings := LogoEvents(config, logo);
      match delivery
      case Delivered =>
        Outcome(true, kept + [now], warnings + [Event(Sent(preview, task.recipient), Success)],
                Some(msg))
      case Refused(e) =>
        Outcome(true, kept, warnings + [Event(Failed(preview, task.recipient, e), Error)],
                Some(msg))
  }

  /**
   * `process_email` as a function of the tracker, the clock, the logo file
   * and the mailer's answer.
   */
  function Dispatch(task: Task, config: Config, times: seq<nat>, now: nat, logo: Logo,
                    delivery: Delivery): (r: Outcome)
    // the task stays queued exactly when the rate limiter turns it away
    ensures r.handled <==> Admits(times, config.limit, config.window, now)
    // the purged tracker gains `now` exactly when a message is delivered
    ensures r.times == Record(times, now - config.window, now, Delivers(task, config, times, now, delivery))
    // a message goes to the mailer exactly when the task is admitted and has a body
    ensures r.message.Some? <==> r.handled && task.body.Some?
  {
    var kept := Purge(times, now - config.window);
    if |kept| >= config.limit then
      Outcome(false, kept, [Event(RateLimited(config.limit), Warning)], None)
    else
      Handle(task, config, kept, now, logo, delivery)
  }

  lemma WarningsThenLast(warnings: seq<Event>, last: Event)
    requires forall i :: 0 <= i < |warnings| ==> warnings[i].kind == Warning
    ensures forall i :: 0 <= i < |warnings + [last]| - 1 ==> (warnings + [last])[i].kind == Warning
  {
  }

  /**
   * The log lines of one call: a turned-away task logs the rate-limit warning
   * alone; a handled one ends with one success or one error line, after
   * warnings only.
   */
  lemma DispatchEvents(task: Task, config: Config, times: seq<nat>, now: nat, logo: Logo,
                       delivery: Delivery)
    ensures var r := Dispatch(task, config, times, now, logo, delivery);
      !r.handled ==> r.events == [Event(RateLimited(config.limit), Warning)]
    ensures var r := Dispatch(task, config, times, now, logo, delivery);
      r.handled ==>
        |r.events| > 0 &&
        r.events[|r.events| - 1].kind == (if Delivers(task, config, times, now, delivery) then Success else Error) &&
        forall i :: 0 <= i < |r.events| - 1 ==> r.events[i].kind == Warning
  {
    var r := Dispatch(task, config, times, now, logo, delivery);
    var kept := Purge(times, now - config.window);
    var preview := SubjectPreview(task.subject);
    if |kept| >= config.limit {
      assert r.events == [Event(RateLimited(config.limit), Warning)];
    } else if task.body.None? {
      assert r.events == [Event(Failed(preview, task.recipient, NoBodyError), Error)];
    } else {
      var warnings := LogoEvents(config, logo);
      var last := if delivery.Delivered? then Event(Sent(preview, task.recipient), Success)
                  else Event(Failed(preview, task.recipient, delivery.error), Error);
      assert r.events == warnings + [last];
      assert Delivers(task, config, times, now, delivery) == delivery.Delivered?;
      WarningsThenLast(warnings, last);
    }
  }

  /**
   * The message handed to the mailer has the full subject, the recipient, the
   * tenant as sender, the rewritten body in the submitted format, a reply-to
   * header exactly when a non-empty one was given, and the inline logo
   * exactly when the file is there.
   */
  lemma DispatchMessage(task: Task, config: Config, times: seq<nat>, now: nat, logo: Logo,
                        delivery: Delivery)
    ensures var r := Dispatch(task, config, times, now, logo, delivery);
      r.message.Some? ==>
        r.message.value.subject == task.subject && r.message.value.to == task.recipient &&
        r.message.value.html == RewriteCids(config, task.body.value) &&
        r.message.value.fromName == config.name && r.message.value.fromAddress == config.user &&
        r.message.value.isHtml == task.isHtml &&
        (r.message.value.replyTo.Some? <==> task.replyTo.Some? && task.replyTo.value != "") &&
        (r.message.value.replyTo.Some? ==> r.message.value.replyTo == task.replyTo) &&
        (r.message.value.inlineLogo.Some? <==> logo.Present?)
  {
  }

  /** The logo file only adds a warning: what happens to the task is the same. */
  lemma LogoOnlyWarns(task: Task, config: Config, times: seq<nat>, now: nat,
                      logo1: Logo, logo2: Logo, delivery: Delivery)
    requires Admits(times, config.limit, config.window, now) && task.body.Some?
    ensures var r1 := Dispatch(task, config, times, now, logo1, delivery);
            var r2 := Dispatch(task, config, times, now, logo2, delivery);
            r1.handled == r2.handled && r1.times == r2.times &&
            r1.events == LogoEvents(config, logo1) + [r1.events[|r1.events| - 1]] &&
            r2.events == LogoEvents(config, logo2) + [r1.events[|r1.events| - 1]]
  {
  }

  /** With a clock that never runs backwards the tracker stays oldest-first. */
  lemma TrackerStaysSorted(task: Task, config: Config, times: seq<nat>, now: nat, logo: Logo,
                           delivery: Delivery)
    requires Sorted(times) && NoLaterThan(times, now)
    ensures Sorted(Dispatch(task, config, times, now, logo, delivery).times)
    ensures NoLaterThan(Dispatch(task, config, times, now, logo, delivery).times, now)
  {
    RecordKeepsSorted(times, now - config.window, now, Delivers(task, config, times, now, delivery));
  }

  /**
   * A tenant limited to two sends an hour: two sends a second apart go out,
   * the third is held back.
   */
  lemma TwoPerHourScenario(task: Task, logo: Logo)
    requires task.body.Some?
    ensures var config := Config("Talrn", "hire@b.trytalrn.com", "Talrn logo.png", "talrn_logo", 2, 3600);
            var r1 := Dispatch(task, config, [], 100, logo, Delivered);
            var r2 := Dispatch(task, config, r1.times, 101, logo, Delivered);
            var r3 := Dispatch(task, config, r2.times, 102, logo, Delivered);
            r1.handled && r1.times == [100] &&
            r2.handled && r2.times == [100, 101] &&
            !r3.handled && r3.times == [100, 101] &&
            r3.events == [Event(RateLimited(2), Warning)]
  {
    assert Purge([100], 101 - 3600) == [100];
    assert Purge([100, 101], 102 - 3600) == [100, 101];
  }

  /** A log line stamped with the clock reading and the brand. */
  function Stamp(time: string, brand: string, events: seq<Event>): (es: seq<LogEntry>)
    ensures |es| == |events|
    ensures forall i :: 0 <= i < |events| ==>
      es[i] == LogEntry(time, NoticeText(events[i].notice), events[i].kind, brand)
    decreases |events|
  {
    if events == [] then []
    else Stamp(time, brand, events[..|events| - 1])
         + [LogEntry(time, NoticeText(events[|events| - 1].notice), events[|events| - 1].kind, brand)]
  }

  lemma LogOneMore(logs: seq<LogEntry>, time: string, brand: string, events: seq<Event>, e: Event)
    ensures LogAppend(LogAppendAll(logs, Stamp(time, brand, events)), LogEntry(time, NoticeText(e.notice), e.kind, brand))
         == LogAppendAll(logs, Stamp(time, brand, events + [e]))
  {
    assert (events + [e])[..|events|] == events;
    LogAppendAllSnoc(logs, Stamp(time, brand, events), LogEntry(time, NoticeText(e.notice), e.kind, brand));
  }

  /**
   * `process_email(task, config, tracker)`: `tracker` and `log` are changed in
   * place; `time` is the clock reading written into log lines.
   */
  method ProcessEmail(log: ActivityLog, task: Task, config: Config, tracker: SendTimes,
                      now: nat, time: string, logo: Logo, delivery: Delivery)
    returns (handled: bool, message: Option<Message>)
    modifies log, tracker
    ensures var r := Dispatch(task, config, old(tracker.times), now, logo, delivery);
      handled == r.handled && message == r.message && tracker.times == r.times &&
      log.entries == LogAppendAll(old(log.entries), Stamp(time, config.name, r.events))
    ensures old(log.Valid()) ==> log.Valid()
  {
    ghost var r := Dispatch(task, config, tracker.times, now, logo, delivery);
    var admitted := CheckRateLimit(tracker, config.limit, config.window, now);
    if !admitted {
      assert r == Outcome(false, tracker.times, [Event(RateLimited(config.limit), Warning)], None);
      LogRateLimited(log, config, time);
      return false, None;
    }
    assert r == Handle(task, config, tracker.times, now, logo, delivery);
    message := HandleEmail(log, task, config, tracker, now, time, logo, delivery);
    handled := true;
  }

  /** The warning `process_email` logs when the rate limiter turns a task away. */
  method LogRateLimited(log: ActivityLog, config: Config, time: string)
    modifies log
    ensures log.entries == LogAppendAll(old(log.entries),
      Stamp(time, config.name, [Event(RateLimited(config.limit), Warning)]))
    ensures old(log.Valid()) ==> log.Valid()
  {
    ghost var start := log.entries;
    var e := Event(RateLimited(config.limit), Warning);
    log.Add(time, NoticeText(e.notice), e.kind, config.name);
    LogOneMore(start, time, config.name, [], e);
    LogBounded(start, Stamp(time, config.name, [e]));
  }

  /** The `try` block of `process_email`, entered once the rate limiter admitted the task. */
  method HandleEmail(log: ActivityLog, task: Task, config: Config, tracker: SendTimes,
                     now: nat, time: string, logo: Logo, delivery: Delivery)
    returns (message: Option<Message>)
    modifies log, tracker
    ensures var r := Handle(task, config, old(tracker.times), now, logo, delivery);
      message == r.message && tracker.times == r.times &&
      log.entries == LogAppendAll(old(log.entries), Stamp(time, config.name, r.events))
    ensures old(log.Valid()) ==> log.Valid()
  {
    ghost var r := Handle(task, config, tracker.times, now, logo, delivery);
    ghost var start := log.entries;
    var preview := SubjectPreview(task.subject);
    if task.body.None? {
      var e := Event(Failed(preview, task.recipient, NoBodyError), Error);
      log.Add(time, NoticeText(e.notice), e.kind, config.name);
      LogOneMore(start, time, config.name, [], e);
      LogBounded(start, Stamp(time, config.name, [e]));
      return None;
    }
    var html := RewriteCids(config, task.body.value);
    message := Some(Render(task, config, html, logo));
    var last := Deliver(log, task, config, tracker, now, time, logo, delivery, preview);
    assert r.events == LogoEvents(config, logo) + [last];
  }

  /**
   * The rest of the `try` block once the body is rewritten: attach the logo,
   * hand the message to the mailer, record the send on success and log the
   * outcome, which `last` returns.
   */
  method Deliver(log: ActivityLog, task: Task, config: Config, tracker: SendTimes,
                 now: nat, time: string, logo: Logo, delivery: Delivery, preview: string)
    returns (last: Event)
    modifies log, tracker
    ensures last == if delivery.Delivered? then Event(Sent(preview, task.recipient), Success)
                    else Event(Failed(preview, task.recipient, delivery.error), Error)
    ensures tracker.times == if delivery.Delivered? then old(tracker.times) + [now] else old(tracker.times)
    ensures log.entries == LogAppendAll(old(log.entries), Stamp(time, config.name, LogoEvents(config, logo) + [last]))
    ensures old(log.Valid()) ==> log.Valid()
  {
    ghost var start := log.entries;
    AttachLogo(log, config, logo, time);
    if delivery.Delivered? {
      tracker.times := tracker.times + [now];
      last := Event(Sent(preview, task.recipient), Success);
    } else {
      last := Event(Failed(preview, task.recipient, delivery.error), Error);
    }
    ghost var warnings := LogoEvents(config, logo);
    log.Add(time, NoticeText(last.notice), last.kind, config.name);
    LogOneMore(start, time, config.name, warnings, last);
    LogBounded(start, Stamp(time, config.name, warnings + [last]));
  }


  /** The logo attachment step: a missing or unreadable file logs a warning. */
  method AttachLogo(log: ActivityLog, config: Config, logo: Logo, time: string)
    modifies log
    ensures log.entries == LogAppendAll(old(log.entries), Stamp(time, config.name, LogoEvents(config, logo)))
  {
    ghost var start := log.entries;
    match logo {
      case Present =>
        assert Stamp(time, config.name, []) == [];
      case Missing =>
        log.Add(time, NoticeText(LogoMissing(config.logo)), Warning, config.name);
        LogOneMore(start, time, config.name, [], Event(LogoMissing(config.logo), Warning));
      case Unreadable(err) =>
        log.Add(time, NoticeText(LogoError(err)), Warning, config.name);
        LogOneMore(start, time, config.name, [], Event(LogoError(err), Warning));
    }
  }

  /**
   * How one iteration of the worker loop ends: the source then sleeps one
   * second when `Idle` and ten when `Deferred`, and goes straight on after
   * `Removed`.
   */
  datatype Step = Idle | Deferred | Removed

  /**
   * One iteration of `worker(queue, config, tracker)`: peek at the head,
   * process it, and pop it only when `process_email` reports it handled.
   */
  method WorkerStep(log: ActivityLog, queue: TaskQueue, config: Config, tracker: SendTimes,
                    now: nat, time: string, logo: Logo, delivery: Delivery)
    returns (step: Step)
    modifies log, queue, tracker
    ensures old(queue.tasks) == [] ==>
      step == Idle && queue.tasks == [] &&
      log.entries == old(log.entries) && tracker.times == old(tracker.times)
    ensures old(queue.tasks) != [] ==>
      var r := Dispatch(old(queue.tasks)[0], config, old(tracker.times), now, logo, delivery);
      tracker.times == r.times &&
      log.entries == LogAppendAll(old(log.entries), Stamp(time, config.name, r.events)) &&
      (r.handled ==> step == Removed && queue.tasks == old(queue.tasks)[1..]) &&
      (!r.handled ==> step == Deferred && queue.tasks == old(queue.tasks))
    ensures step == Removed ==> |old(queue.tasks)| > 0 && queue.tasks == old(queue.tasks)[1..]
    ensures step != Removed ==> queue.tasks == old(queue.tasks)
    ensures old(log.Valid()) ==> log.Valid()
  {
    if queue.tasks == [] {
      return Idle;
    }
    var task := queue.tasks[0];
    var handled, _ := ProcessEmail(log, task, config, tracker, now, time, logo, delivery);
    if handled {
      queue.tasks := queue.tasks[1..];
      step := Removed;
    } else {
      step := Deferred;
    }
  }

  /** The clock, the logo file and the mailer as one loop iteration sees them. */
  datatype Tick = Tick(now: nat, time: string, logo: Logo, delivery: Delivery)

  /** What a worker has in hand: its queue, its tracker, the log, and the tasks it removed. */
  datatype WorkerState = WorkerState(tasks: seq<Task>, times: seq<nat>, logs: seq<LogEntry>,
                                     done: seq<Task>)

  /** One iteration of the worker loop on values, as `WorkerStep` performs it in place. */
  function StepState(s: WorkerState, config: Config, tick: Tick): WorkerState {
    if s.tasks == [] then s
    else
      var r := Dispatch(s.tasks[0], config, s.times, tick.now, tick.logo, tick.delivery);
      WorkerState(if r.handled then s.tasks[1..] else s.tasks, r.times,
                  LogAppendAll(s.logs, Stamp(tick.time, config.name, r.events)),
                  if r.handled then s.done + [s.tasks[0]] else s.done)
  }

  /** The worker loop run for one iteration per tick, oldest tick first. */
  function RunWorker(s: WorkerState, config: Config, ticks: seq<Tick>): WorkerState
    decreases |ticks|
  {
    if ticks == [] then s
    else StepState(RunWorker(s, config, ticks[..|ticks| - 1]), config, ticks[|ticks| - 1])
  }

  /** One iteration removes at most the head, into `done`, and keeps the log within capacity. */
  lemma StepConserves(s: WorkerState, config: Config, tick: Tick)
    ensures var f := StepState(s, config, tick);
      f.done + f.tasks == s.done + s.tasks && |f.done| <= |s.done| + 1 &&
      (|s.logs| <= Capacity ==> |f.logs| <= Capacity)
  {
    if s.tasks != [] {
      var r := Dispatch(s.tasks[0], config, s.times, tick.now, tick.logo, tick.delivery);
      LogBounded(s.logs, Stamp(tick.time, config.name, r.events));
      if r.handled {
        assert (s.done + [s.tasks[0]]) + s.tasks[1..] == s.done + ([s.tasks[0]] + s.tasks[1..]);
        assert [s.tasks[0]] + s.tasks[1..] == s.tasks;
      }
    }
  }

  /**
   * However many iterations run, the removed tasks followed by the queue are
   * what the worker started with, at most one task goes per iteration, and
   * the log stays within capacity.
   */
  lemma {:induction false} RunWorkerConserves(s: WorkerState, config: Config, ticks: seq<Tick>)
    ensures var f := RunWorker(s, config, ticks);
      f.done + f.tasks == s.done + s.tasks && |f.done| <= |s.done| + |ticks| &&
      (|s.logs| <= Capacity ==> |f.logs| <= Capacity)
    decreases |ticks|
  {
    if ticks != [] {
      var m := RunWorker(s, config, ticks[..|ticks| - 1]);
      RunWorkerConserves(s, config, ticks[..|ticks| - 1]);
      StepConserves(m, config, ticks[|ticks| - 1]);
    }
  }

  /**
   * The `while running` loop of `worker`, run for one iteration per tick: the
   * queue, the tracker and the log end as `RunWorker` says, and `done` lists
   * the tasks it removed.
   */
  method Worker(log: ActivityLog, queue: TaskQueue, config: Config, tracker: SendTimes,
                ticks: seq<Tick>)
    returns (done: seq<Task>)
    modifies log, queue, tracker
    ensures var f := RunWorker(WorkerState(old(queue.tasks), old(tracker.times), old(log.entries), []),
                               config, ticks);
      queue.tasks == f.tasks && tracker.times == f.times && log.entries == f.logs && done == f.done
    ensures done + queue.tasks == old(queue.tasks)
    ensures |done| <= |ticks|
    ensures old(log.Valid()) ==> log.Valid()
  {
    ghost var init := WorkerState(queue.tasks, tracker.times, log.entries, []);
    done := [];
    for i := 0 to |ticks|
      invariant var f := RunWorker(init, config, ticks[..i]);
        queue.tasks == f.tasks && tracker.times == f.times && log.entries == f.logs && done == f.done
    {
      var tick := ticks[i];
      var before := queue.tasks;
      assert ticks[..i + 1][..i] == ticks[..i];
      var step := WorkerStep(log, queue, config, tracker, tick.now, tick.time, tick.logo, tick.delivery);
      if step == Removed {
        done := done + [before[0]];
      }
    }
    assert ticks[..|ticks|] == ticks;
    RunWorkerConserves(init, config, ticks);
  }

  /** What happens to a tenant's queue: the submission path appends, the worker steps. */
  datatype QueueEvent = Enqueued(task: Task) | Processed(handled: bool)

  datatype Trace = Trace(removed: seq<Task>, queue: seq<Task>)

  /** The queue after a series of appends and worker steps, with the tasks removed. */
  function Run(q: seq<Task>, evs: seq<QueueEvent>): Trace
    decreases |evs|
  {
    if evs == [] then Trace([], q)
    else if evs[0].Enqueued? then Run(q + [evs[0].task], evs[1..])
    else if q != [] && evs[0].handled then
      var t := Run(q[1..], evs[1..]);
      Trace([q[0]] + t.removed, t.queue)
    else Run(q, evs[1..])
  }

  function Appended(evs: seq<QueueEvent>): seq<Task>
    decreases |evs|
  {
    if evs == [] then []
    else (if evs[0].Enqueued? then [evs[0].task] else []) + Appended(evs[1..])
  }

  /**
   * FIFO: however appends and worker steps interleave, the removed tasks
   * followed by the remaining queue are the initial queue followed by the
   * appended tasks, so tasks leave in the order they arrived.
   */
  lemma {:induction false} RunIsFifo(q: seq<Task>, evs: seq<QueueEvent>)
    ensures Run(q, evs).removed + Run(q, evs).queue == q + Appended(evs)
    decreases |evs|
  {
    if evs != [] {
      var rest := evs[1..];
      if evs[0].Enqueued? {
        var t := evs[0].task;
        assert Appended(evs) == [t] + Appended(rest);
        RunIsFifo(q + [t], rest);
        assert (q + [t]) + Appended(rest) == q + ([t] + Appended(rest));
      } else if q != [] && evs[0].handled {
        var tr := Run(q[1..], rest);
        assert Appended(evs) == Appended(rest);
        RunIsFifo(q[1..], rest);
        assert ([q[0]] + tr.removed) + tr.queue == [q[0]] + (tr.removed + tr.queue);
        assert [q[0]] + (q[1..] + Appended(rest)) == q + Appended(rest);
      } else {
        assert Appended(evs) == Appended(rest);
        RunIsFifo(q, rest);
      }
    }
  }

  /** One `Enqueued` event per task, in order. */
  function Enqueues(ts: seq<Task>): (evs: seq<QueueEvent>)
    ensures |evs| == |ts|
    decreases |ts|
  {
    if ts == [] then [] else [Enqueued(ts[0])] + Enqueues(ts[1..])
  }

  /** Appending tasks one by one, as `send` does, is a run of `Enqueued` events. */
  lemma {:induction false} RunEnqueues(q: seq<Task>, ts: seq<Task>)
    ensures Run(q, Enqueues(ts)) == Trace([], q + ts)
    decreases |ts|
  {
    if ts != [] {
      assert Enqueues(ts)[1..] == Enqueues(ts[1..]);
      RunEnqueues(q + [ts[0]], ts[1..]);
      assert (q + [ts[0]]) + ts[1..] == q + ts;
    }
  }

  /**
   * One worker iteration moves the queue exactly as one `Processed` event
   * does, `handled` being what `process_email` returned for the head.
   */
  lemma StepIsProcessed(s: WorkerState, config: Config, tick: Tick)
    ensures var h := s.tasks != [] &&
                     Dispatch(s.tasks[0], config, s.times, tick.now, tick.logo, tick.delivery).handled;
      var t := Run(s.tasks, [Processed(h)]);
      StepState(s, config, tick).tasks == t.queue && StepState(s, config, tick).done == s.done + t.removed
  {
    assert [Processed(true)][1..] == [] && [Processed(false)][1..] == [];
  }
}
