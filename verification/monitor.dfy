/**
 The alerting logic of btrfs-monitor.py, as pure steps. Each step takes
 the state, the wall-clock second `now` where the script reads the clock,
 and the observation; it returns the new state together with the
 notifications `sendNotification` would have been called with, in order.
 */
module Monitor {
  import opened Basics
  import opened Text
  import opened Notify
  import opened Messages
  import opened Journal

  /** Longest debounce period, one day in seconds. */
  const MaxDebounce := 86400

  /** The settings the alerting logic reads: `timing.error_debounce_sec` and `platform.node()`. */
  datatype Config = Config(errorDebounceSec: int, hostname: string)

  /** A body as callers pass it: a list of lines, or a single string. */
  datatype Body = Lines(lines: seq<string>) | Single(text: string)

  /**
   The subject actually sent: the host name is appended as " at <host>"
   unless the subject already contains it anywhere.
   */
  function WithHost(subject: string, hostname: string): (r: string)
    ensures Contains(r, hostname)
    ensures subject <= r
    ensures r == subject <==> Contains(subject, hostname)
    ensures !Contains(subject, hostname) ==> r == subject + " at " + hostname
  {
    if Contains(subject, hostname) then subject
    else
      ContainsOwnSuffix(subject + " at ", hostname);
      subject + " at " + hostname
  }

  /**
   `sendNotification(subject, body, priority)`: a bare string body becomes a
   one-line list, and the subject is tagged with the host name.
   */
  function SendNotification(hostname: string, subject: string, body: Body, priority: int): (r: Notification)
    ensures Contains(r.subject, hostname) && subject <= r.subject
    ensures r.subject == subject <==> Contains(subject, hostname)
    ensures body.Single? ==> r.lines == [body.text]
    ensures body.Lines? ==> r.lines == body.lines
    ensures r.priority == priority
  {
    Notification(WithHost(subject, hostname), match body case Lines(ls) => ls case Single(t) => [t], priority)
  }

  /** Sending an already prepared notification again changes nothing: tagging is idempotent. */
  lemma SendNotificationIdempotent(hostname: string, subject: string, body: Body, priority: int)
    ensures var n := SendNotification(hostname, subject, body, priority);
            SendNotification(hostname, n.subject, Lines(n.lines), n.priority) == n
  {
  }

  // ----- StateMachine -------------------------------------------------------

  /** The four dictionaries of `StateMachine`, keyed by filesystem UUID or mountpoint. */
  datatype StateMachine = StateMachine(
    missingMap: map<string, bool>,
    errorCount: map<string, int>,
    lastErrorNotification: map<string, int>,
    currentDebounce: map<string, int>)

  const EmptyMachine := StateMachine(map[], map[], map[], map[])

  /** The state after a step and the notifications the step sent. */
  datatype Step = Step(machine: StateMachine, sent: seq<Notification>)

  function MissingAlert(cfg: Config, uuid: string): Notification
  {
    SendNotification(cfg.hostname, MissingSubject, Lines([MissingDetected(uuid)]), DefaultPriority)
  }

  function MissingOkAlert(cfg: Config, uuid: string): Notification
  {
    SendNotification(cfg.hostname, MissingOkSubject, Lines([MissingBackToNormal(uuid)]), DefaultPriority)
  }

  /**
   `updateMissingDevice`: edge-triggered. An alert goes out exactly when the
   new flag differs from the stored one (false when never seen): "Missing
   device" when a device goes missing, "Missing device OK" when it comes
   back. The flag is stored in every case and no other UUID is touched.
   */
  function UpdateMissingDevice(sm: StateMachine, cfg: Config, uuid: string, isMissing: bool): (r: Step)
    ensures r.machine == sm.(missingMap := sm.missingMap[uuid := isMissing])
    ensures |r.sent| == (if Get(sm.missingMap, uuid, false) != isMissing then 1 else 0)
    ensures |r.sent| == 1 && isMissing ==> r.sent[0] == MissingAlert(cfg, uuid)
    ensures |r.sent| == 1 && !isMissing ==> r.sent[0] == MissingOkAlert(cfg, uuid)
  {
    var oldMissing := Get(sm.missingMap, uuid, false);
    var sent :=
      if !oldMissing && isMissing then [MissingAlert(cfg, uuid)]
      else if oldMissing && !isMissing then [MissingOkAlert(cfg, uuid)]
      else [];
    Step(sm.(missingMap := sm.missingMap[uuid := isMissing]), sent)
  }

  /** Successive observations of one filesystem, starting from `sm`. */
  function RunMissing(sm: StateMachine, cfg: Config, uuid: string, flags: seq<bool>): Step
    decreases |flags|
  {
    if |flags| == 0 then Step(sm, [])
    else
      var first := UpdateMissingDevice(sm, cfg, uuid, flags[0]);
      var rest := RunMissing(first.machine, cfg, uuid, flags[1..]);
      Step(rest.machine, first.sent + rest.sent)
  }

  /** How many times a flag sequence changes value, starting from `prev`. */
  function FlagChanges(prev: bool, flags: seq<bool>): nat
    decreases |flags|
  {
    if |flags| == 0 then 0
    else (if flags[0] != prev then 1 else 0) + FlagChanges(flags[0], flags[1..])
  }

  /**
   Over any sequence of observations, one alert is sent per change of the
   flag and none for repeated equal observations; the last observation is
   what remains stored.
   */
  lemma {:induction false} MissingAlertsCountChanges(sm: StateMachine, cfg: Config, uuid: string, flags: seq<bool>)
    ensures |RunMissing(sm, cfg, uuid, flags).sent| == FlagChanges(Get(sm.missingMap, uuid, false), flags)
    ensures |flags| > 0 ==> Get(RunMissing(sm, cfg, uuid, flags).machine.missingMap, uuid, false) == flags[|flags| - 1]
    decreases |flags|
  {
    if |flags| > 0 {
      var first := UpdateMissingDevice(sm, cfg, uuid, flags[0]);
      MissingAlertsCountChanges(first.machine, cfg, uuid, flags[1..]);
      if |flags| > 1 {
        assert flags[1..][|flags[1..]| - 1] == flags[|flags| - 1];
      }
    }
  }

  /** The sequence false, false, true, true, false alerts twice: on the way down and back up. */
  lemma MissingEdgeExample(cfg: Config, uuid: string)
    ensures |RunMissing(EmptyMachine, cfg, uuid, [false, false, true, true, false]).sent| == 2
  {
    MissingAlertsCountChanges(EmptyMachine, cfg, uuid, [false, false, true, true, false]);
  }

  /** The debounce that follows `current` once an alert goes out (code of `updateErrorCount`). */
  function NextDebounce(current: int, initial: int): int
  {
    Min(if current == 0 then initial else current * 2, MaxDebounce)
  }

  /**
   The debounce never exceeds a day and, for a non-negative configured
   start, never shrinks from one alert to the next.
   */
  lemma NextDebounceBoundedAndMonotone(current: int, initial: int)
    requires 0 <= initial
    requires 0 <= current <= MaxDebounce
    ensures current <= NextDebounce(current, initial) <= MaxDebounce
  {
  }

  /** The debounce after `k` consecutive alerts with no recovery in between. */
  function DebounceAfter(k: nat, initial: int): int
  {
    if k == 0 then 0 else NextDebounce(DebounceAfter(k - 1, initial), initial)
  }

  /**
   Exponential backoff: whatever the configured start, the `k`-th alert
   sets the debounce to the start doubled `k - 1` times, capped at one day.
   */
  lemma {:induction false} DebounceDoublesUpToOneDay(k: nat, initial: int)
    requires k >= 1
    ensures DebounceAfter(k, initial) == Min(initial * Pow2(k - 1), MaxDebounce)
  {
    if k > 1 {
      DebounceDoublesUpToOneDay(k - 1, initial);
      assert initial * Pow2(k - 1) == 2 * (initial * Pow2(k - 2));
    }
  }

  function ErrorAlert(cfg: Config, mountpoint: string, errCnt: int): Notification
  {
    SendNotification(cfg.hostname, ErrorsSubject, Single(ErrorCountIncreased(mountpoint, errCnt)), DefaultPriority)
  }

  function ErrorOkAlert(cfg: Config, mountpoint: string): Notification
  {
    SendNotification(cfg.hostname, ErrorsOkSubject, Single(ErrorCountNormal(mountpoint)), DefaultPriority)
  }

  /**
   `updateErrorCount` for one mountpoint observed at second `now`.
   - An increased count outside the debounce window (elapsed time since the
     last alert, default 0, greater than the debounce, default 0) sends one
     alert, records `now` and advances the debounce.
   - An increased count inside the window sends nothing and keeps both.
   - A count falling from positive to zero sends one "back to normal"
     alert and forgets the debounce, but keeps the last alert time.
   - Anything else (equal, 0 to 0, a decrease to a positive count) is silent.
   The new count is stored on every branch and nothing else changes.
   */
  function UpdateErrorCount(sm: StateMachine, cfg: Config, mountpoint: string, errCnt: int, now: int): (r: Step)
    ensures r.machine.missingMap == sm.missingMap
    ensures r.machine.errorCount == sm.errorCount[mountpoint := errCnt]
    ensures var prev := Get(sm.errorCount, mountpoint, 0);
            var delay := Get(sm.currentDebounce, mountpoint, 0);
            prev < errCnt && now - Get(sm.lastErrorNotification, mountpoint, 0) > delay ==>
              && r.sent == [ErrorAlert(cfg, mountpoint, errCnt)]
              && r.machine.lastErrorNotification == sm.lastErrorNotification[mountpoint := now]
              && r.machine.currentDebounce == sm.currentDebounce[mountpoint :=
                   Min(if delay == 0 then cfg.errorDebounceSec else 2 * delay, MaxDebounce)]
    ensures var prev := Get(sm.errorCount, mountpoint, 0);
            prev < errCnt && now - Get(sm.lastErrorNotification, mountpoint, 0) <= Get(sm.currentDebounce, mountpoint, 0) ==>
              && r.sent == []
              && r.machine.lastErrorNotification == sm.lastErrorNotification
              && r.machine.currentDebounce == sm.currentDebounce
    ensures Get(sm.errorCount, mountpoint, 0) > 0 && errCnt == 0 ==>
              && r.sent == [ErrorOkAlert(cfg, mountpoint)]
              && r.machine.lastErrorNotification == sm.lastErrorNotification
              && r.machine.currentDebounce == sm.currentDebounce - {mountpoint}
    ensures var prev := Get(sm.errorCount, mountpoint, 0);
            errCnt <= prev && !(prev > 0 && errCnt == 0) ==>
              && r.sent == []
              && r.machine.lastErrorNotification == sm.lastErrorNotification
              && r.machine.currentDebounce == sm.currentDebounce
  {
    var lastErrCnt := Get(sm.errorCount, mountpoint, 0);
    var stored := sm.(errorCount := sm.errorCount[mountpoint := errCnt]);
    if lastErrCnt < errCnt then
      var lastNotifTime := Get(sm.lastErrorNotification, mountpoint, 0);
      var currentDelay := Get(sm.currentDebounce, mountpoint, 0);
      if now - lastNotifTime > currentDelay then
        Step(stored.(lastErrorNotification := sm.lastErrorNotification[mountpoint := now],
                     currentDebounce := sm.currentDebounce[mountpoint := NextDebounce(currentDelay, cfg.errorDebounceSec)]),
             [ErrorAlert(cfg, mountpoint, errCnt)])
      else
        Step(stored, [])
    else if lastErrCnt > 0 && errCnt == 0 then
      Step(stored.(currentDebounce := sm.currentDebounce - {mountpoint}), [ErrorOkAlert(cfg, mountpoint)])
    else
      Step(stored, [])
  }

  /** Every stored debounce lies between zero and one day. */
  predicate DebounceBounded(sm: StateMachine)
  {
    forall mp :: mp in sm.currentDebounce ==> 0 <= sm.currentDebounce[mp] <= MaxDebounce
  }

  /**
   With a non-negative configured start, a step keeps every debounce within
   [0, one day] and never lowers a debounce that survives it; only a
   recovery removes one.
   */
  lemma UpdateErrorCountKeepsDebounceBounded(sm: StateMachine, cfg: Config, mountpoint: string, errCnt: int, now: int)
    requires 0 <= cfg.errorDebounceSec
    requires DebounceBounded(sm)
    ensures var r := UpdateErrorCount(sm, cfg, mountpoint, errCnt, now);
            && DebounceBounded(r.machine)
            && (forall mp :: mp in r.machine.currentDebounce ==>
                  Get(sm.currentDebounce, mp, 0) <= r.machine.currentDebounce[mp])
            && (forall mp :: mp in sm.currentDebounce && mp !in r.machine.currentDebounce ==>
                  mp == mountpoint && errCnt == 0)
  {
    NextDebounceBoundedAndMonotone(Get(sm.currentDebounce, mountpoint, 0), cfg.errorDebounceSec);
  }

  /** Observing the same count twice in a row: the second observation sends nothing and changes nothing. */
  lemma RepeatedCountIsSilent(sm: StateMachine, cfg: Config, mountpoint: string, errCnt: int, t1: int, t2: int)
    ensures var first := UpdateErrorCount(sm, cfg, mountpoint, errCnt, t1);
            var second := UpdateErrorCount(first.machine, cfg, mountpoint, errCnt, t2);
            second.sent == [] && second.machine == first.machine
  {
  }

  /** One reading of a mountpoint's error count, at second `time`. */
  datatype Observation = Observation(time: int, count: int)

  /** Successive readings of one mountpoint, starting from `sm`. */
  function RunErrorCounts(sm: StateMachine, cfg: Config, mountpoint: string, obs: seq<Observation>): Step
    decreases |obs|
  {
    if |obs| == 0 then Step(sm, [])
    else
      var first := UpdateErrorCount(sm, cfg, mountpoint, obs[0].count, obs[0].time);
      var rest := RunErrorCounts(first.machine, cfg, mountpoint, obs[1..]);
      Step(rest.machine, first.sent + rest.sent)
  }

  /** Readings each more than a day after the previous one (the first after `t`). */
  predicate SpacedAfter(t: int, obs: seq<Observation>)
    decreases |obs|
  {
    |obs| == 0 || (obs[0].time > t + MaxDebounce && SpacedAfter(obs[0].time, obs[1..]))
  }

  /** How many readings are an increase or a fall to zero, starting from count `prev`. */
  function CountEdges(prev: int, obs: seq<Observation>): nat
    decreases |obs|
  {
    if |obs| == 0 then 0
    else (if prev < obs[0].count || (prev > 0 && obs[0].count == 0) then 1 else 0)
         + CountEdges(obs[0].count, obs[1..])
  }

  /**
   When readings are spread out beyond the longest debounce, debouncing
   never bites: exactly one alert per increase and one per recovery.
   */
  lemma {:induction false} SpacedReadingsAlertOnEveryEdge(sm: StateMachine, cfg: Config, mountpoint: string, t: int, obs: seq<Observation>)
    requires Get(sm.lastErrorNotification, mountpoint, 0) <= t
    requires Get(sm.currentDebounce, mountpoint, 0) <= MaxDebounce
    requires SpacedAfter(t, obs)
    ensures |RunErrorCounts(sm, cfg, mountpoint, obs).sent| == CountEdges(Get(sm.errorCount, mountpoint, 0), obs)
    decreases |obs|
  {
    if |obs| > 0 {
      var first := UpdateErrorCount(sm, cfg, mountpoint, obs[0].count, obs[0].time);
      SpacedReadingsAlertOnEveryEdge(first.machine, cfg, mountpoint, obs[0].time, obs[1..]);
    }
  }

  /** Counts 0, 0, 5, 5, 5, 0 read a day and more apart alert twice: at 0 to 5 and at 5 to 0. */
  lemma ErrorEdgeExample(cfg: Config, mountpoint: string)
    ensures |RunErrorCounts(EmptyMachine, cfg, mountpoint,
              [Observation(100000, 0), Observation(200000, 0), Observation(300000, 5),
               Observation(400000, 5), Observation(500000, 5), Observation(600000, 0)]).sent| == 2
  {
    var obs := [Observation(100000, 0), Observation(200000, 0), Observation(300000, 5),
                Observation(400000, 5), Observation(500000, 5), Observation(600000, 0)];
    assert SpacedAfter(0, obs[5..]);
    assert SpacedAfter(0, obs);
    SpacedReadingsAlertOnEveryEdge(EmptyMachine, cfg, mountpoint, 0, obs);
    assert CountEdges(5, obs[5..]) == 1;
    assert CountEdges(5, obs[4..]) == 1;
    assert CountEdges(5, obs[3..]) == 1;
    assert CountEdges(0, obs[2..]) == 2;
    assert CountEdges(0, obs[1..]) == 2;
  }

  // ----- journal report cycle of monitor_and_report -------------------------

  /** The kernel-line buffer and the debounce state local to `monitor_and_report`. */
  datatype JournalReporter = JournalReporter(buffer: seq<string>, lastNotification: int, debounce: int)

  const InitialReporter := JournalReporter([], 0, 0)

  datatype ReportStep = ReportStep(reporter: JournalReporter, sent: seq<Notification>)

  function JournalReport(cfg: Config, buffered: seq<string>): Notification
  {
    SendNotification(cfg.hostname, KernelErrorsSubject, Lines([JournalHeader, JournalHint] + buffered), DefaultPriority)
  }

  /**
   One pass of the report loop, the clock read as `now` before the grace
   wait. A non-empty buffer whose debounce has run out is sent as one report
   (the two guidance lines, then every buffered line in order) and emptied;
   the report time becomes `now` and the debounce becomes the configured
   start, then doubles up to one day. Otherwise nothing is sent and the
   buffer stays, to be reported later.
   */
  function ReportJournal(rep: JournalReporter, cfg: Config, now: int): (r: ReportStep)
    ensures rep.buffer != [] && now - rep.lastNotification > rep.debounce ==>
              && r.sent == [JournalReport(cfg, rep.buffer)]
              && r.reporter.buffer == []
              && r.reporter.lastNotification == now
              && r.reporter.debounce == (if rep.debounce == 0 then cfg.errorDebounceSec
                                         else Min(2 * rep.debounce, MaxDebounce))
    ensures !(rep.buffer != [] && now - rep.lastNotification > rep.debounce) ==>
              r.sent == [] && r.reporter == rep
  {
    if rep.buffer != [] && now - rep.lastNotification > rep.debounce then
      var debounce := if rep.debounce == 0 then cfg.errorDebounceSec else Min(rep.debounce * 2, MaxDebounce);
      ReportStep(JournalReporter([], now, debounce), [JournalReport(cfg, rep.buffer)])
    else
      ReportStep(rep, [])
  }

  /**
   Coalescing: after a flush, every relevant line of the journal that
   arrives before the next due report goes out in that one report, in
   arrival order, and the buffer starts over empty.
   */
  lemma CoalescedJournalReport(rep: JournalReporter, cfg: Config, lines: seq<string>, now: int)
    requires rep.buffer == []
    requires Relevant(lines) != []
    requires now - rep.lastNotification > rep.debounce
    ensures var r := ReportJournal(rep.(buffer := CollectAll(rep.buffer, lines)), cfg, now);
            r.sent == [JournalReport(cfg, Relevant(lines))] && r.reporter.buffer == []
  {
    CollectAllAppendsRelevant(rep.buffer, lines);
    assert rep.buffer + Relevant(lines) == Relevant(lines);
  }

  /**
   The journal debounce stays within [0, max(start, one day)] and, when the
   configured start is at most a day, never shrinks from one report to the
   next. Unlike the per-mountpoint debounce, its first value is the
   configured start without the one-day cap.
   */
  lemma JournalDebounceBounded(rep: JournalReporter, cfg: Config, now: int)
    requires 0 <= cfg.errorDebounceSec
    requires 0 <= rep.debounce <= if cfg.errorDebounceSec > MaxDebounce then cfg.errorDebounceSec else MaxDebounce
    ensures var r := ReportJournal(rep, cfg, now);
            && 0 <= r.reporter.debounce
            && r.reporter.debounce <= (if cfg.errorDebounceSec > MaxDebounce then cfg.errorDebounceSec else MaxDebounce)
            && (cfg.errorDebounceSec <= MaxDebounce && rep.debounce <= MaxDebounce ==> rep.debounce <= r.reporter.debounce)
  {
  }
}
