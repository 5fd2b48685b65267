/**
 The alerting logic of btrfs-watchd.py, as pure steps over the script's
 global state: the missing-device map of its `StateMachine`, the journal
 buffer, the insertion-ordered `failing_devices` dictionary and the
 `reported_failing_devices` list. Steps return the new state and the
 notifications sent, in order.
 */
module Watchd {
  import opened Basics
  import opened Text
  import opened Notify
  import opened Messages
  import opened Journal
  import opened Stats
  import Monitor

  /** An entry `failing_devices[device] = [errors, mountpoint]`. */
  datatype DeviceRecord = DeviceRecord(device: string, errors: int, mountpoint: string)

  /**
   The script's state. `failingDevices` lists the dictionary's entries in
   insertion order, as Python iterates them.
   */
  datatype Watchd = Watchd(
    missingMap: map<string, bool>,
    journal: seq<string>,
    failingDevices: seq<DeviceRecord>,
    reported: seq<string>)

  const Initial := Watchd(map[], [], [], [])

  datatype Step = Step(state: Watchd, sent: seq<Notification>)

  /** This script's `sendNotification` passes the subject through untouched. */
  function Send(subject: string, lines: seq<string>): Notification
  {
    Notification(subject, lines, DefaultPriority)
  }

  /**
   `updateMissingDevice`, written with two independent `if`s. The two
   conditions exclude each other, so at most one alert goes out, and one
   does exactly when the flag changes; the flag is stored unconditionally.
   */
  function UpdateMissingDevice(st: Watchd, uuid: string, isMissing: bool): (r: Step)
    ensures r.state == st.(missingMap := st.missingMap[uuid := isMissing])
    ensures |r.sent| <= 1
    ensures |r.sent| == 1 <==> Get(st.missingMap, uuid, false) != isMissing
    ensures |r.sent| == 1 && isMissing ==> r.sent[0] == Send(MissingSubject, [MissingDetected(uuid)])
    ensures |r.sent| == 1 && !isMissing ==> r.sent[0] == Send(MissingOkSubject, [MissingBackToNormal(uuid)])
  {
    var oldMissing := Get(st.missingMap, uuid, false);
    var first := if !oldMissing && isMissing then [Send(MissingSubject, [MissingDetected(uuid)])] else [];
    var second := if oldMissing && !isMissing then [Send(MissingOkSubject, [MissingBackToNormal(uuid)])] else [];
    Step(st.(missingMap := st.missingMap[uuid := isMissing]), first + second)
  }

  /**
   The two scripts track missing devices identically: the same flag is
   stored and an alert with the same body and priority goes out on the same
   observations; btrfs-monitor.py only adds its host tag to the subject.
   */
  lemma MissingDeviceAgreesWithMonitor(st: Watchd, sm: Monitor.StateMachine, cfg: Monitor.Config, uuid: string, isMissing: bool)
    requires st.missingMap == sm.missingMap
    ensures var w := UpdateMissingDevice(st, uuid, isMissing);
            var m := Monitor.UpdateMissingDevice(sm, cfg, uuid, isMissing);
            && w.state.missingMap == m.machine.missingMap
            && |w.sent| == |m.sent|
            && (forall i :: 0 <= i < |w.sent| ==>
                  && m.sent[i].lines == w.sent[i].lines
                  && m.sent[i].priority == w.sent[i].priority
                  && m.sent[i].subject == Monitor.WithHost(w.sent[i].subject, cfg.hostname))
  {
  }

  // ----- failing_devices ----------------------------------------------------

  /** The dictionary's keys, in iteration order. */
  function Devices(fs: seq<DeviceRecord>): (r: seq<string>)
    ensures |r| == |fs|
  {
    if |fs| == 0 then [] else [fs[0].device] + Devices(fs[1..])
  }

  /** `failing_devices.get(device)`. */
  function Lookup(fs: seq<DeviceRecord>, device: string): Option<DeviceRecord>
  {
    if |fs| == 0 then None
    else if fs[0].device == device then Some(fs[0])
    else Lookup(fs[1..], device)
  }

  /**
   `failing_devices[rec.device] = rec`: the entry is overwritten in place if
   the key exists and appended otherwise, so keys keep their first
   insertion position; every other key keeps its value.
   */
  function Put(fs: seq<DeviceRecord>, rec: DeviceRecord): (r: seq<DeviceRecord>)
    ensures Lookup(r, rec.device) == Some(rec)
    ensures forall d :: d != rec.device ==> Lookup(r, d) == Lookup(fs, d)
    ensures Devices(r) == if rec.device in Devices(fs) then Devices(fs) else Devices(fs) + [rec.device]
    decreases |fs|
  {
    if |fs| == 0 then [rec]
    else if fs[0].device == rec.device then [rec] + fs[1..]
    else
      var rest := Put(fs[1..], rec);
      assert Devices(fs) == [fs[0].device] + Devices(fs[1..]);
      [fs[0]] + rest
  }

  /** The record one stats entry produces: the sum of its five counters and the mountpoint. */
  function RecordOf(d: DeviceStats, mountpoint: string): DeviceRecord
  {
    DeviceRecord(d.device, DeviceErrors(d), mountpoint)
  }

  /** One mountpoint's stats pass: every device of the output is recorded in turn. */
  function RecordStats(fs: seq<DeviceRecord>, mountpoint: string, devices: seq<DeviceStats>): seq<DeviceRecord>
    decreases |devices|
  {
    if |devices| == 0 then fs
    else RecordStats(Put(fs, RecordOf(devices[0], mountpoint)), mountpoint, devices[1..])
  }

  /** The last stats entry for `device`, if the pass reported it at all. */
  function LastStats(devices: seq<DeviceStats>, device: string): Option<DeviceStats>
    decreases |devices|
  {
    if |devices| == 0 then None
    else match LastStats(devices[1..], device)
      case Some(s) => Some(s)
      case None => if devices[0].device == device then Some(devices[0]) else None
  }

  /**
   After a stats pass each reported device maps to the sum of its five
   counters and this mountpoint, overwriting what was there (the last entry
   wins should a device appear twice); every other device is untouched.
   */
  lemma {:induction false} RecordStatsOverwrites(fs: seq<DeviceRecord>, mountpoint: string, devices: seq<DeviceStats>, device: string)
    ensures Lookup(RecordStats(fs, mountpoint, devices), device) ==
            match LastStats(devices, device)
            case Some(s) => Some(DeviceRecord(device, DeviceErrors(s), mountpoint))
            case None => Lookup(fs, device)
    decreases |devices|
  {
    if |devices| > 0 {
      RecordStatsOverwrites(Put(fs, RecordOf(devices[0], mountpoint)), mountpoint, devices[1..], device);
    }
  }

  // ----- monitor_and_report -------------------------------------------------

  /**
   The loop over `failing_devices` in `monitor_and_report`: entries, in
   dictionary order, with a positive count whose device is not yet in the
   reported list; each one found joins that list before the next is
   examined.
   */
  function NewlyFailing(fs: seq<DeviceRecord>, reported: seq<string>): seq<DeviceRecord>
    decreases |fs|
  {
    if |fs| == 0 then []
    else if fs[0].errors > 0 && fs[0].device !in reported then
      [fs[0]] + NewlyFailing(fs[1..], reported + [fs[0].device])
    else
      NewlyFailing(fs[1..], reported)
  }

  /** Appending the keys of an entry list one entry at a time. */
  lemma DevicesCons(reported: seq<string>, rec: DeviceRecord, rest: seq<DeviceRecord>)
    ensures reported + Devices([rec] + rest) == reported + [rec.device] + Devices(rest)
  {
    assert ([rec] + rest)[1..] == rest;
  }

  /** One step of the loop: an entry that is failing and new is taken. */
  lemma NewlyFailingTakes(fs: seq<DeviceRecord>, reported: seq<string>)
    requires |fs| > 0 && fs[0].errors > 0 && fs[0].device !in reported
    ensures reported + Devices(NewlyFailing(fs, reported))
            == reported + [fs[0].device] + Devices(NewlyFailing(fs[1..], reported + [fs[0].device]))
  {
    var rest := NewlyFailing(fs[1..], reported + [fs[0].device]);
    assert NewlyFailing(fs, reported) == [fs[0]] + rest;
    DevicesCons(reported, fs[0], rest);
  }

  /** Remembering the newly failing devices keeps the reported list free of repeats. */
  lemma {:induction false} NewlyFailingAreNew(fs: seq<DeviceRecord>, reported: seq<string>)
    requires NoDup(reported)
    ensures NoDup(reported + Devices(NewlyFailing(fs, reported)))
    decreases |fs|
  {
    if |fs| == 0 {
      assert reported + Devices([]) == reported;
    } else if fs[0].errors > 0 && fs[0].device !in reported {
      var reported' := reported + [fs[0].device];
      NoDupAppend(reported, [fs[0].device]);
      NewlyFailingAreNew(fs[1..], reported');
      NewlyFailingTakes(fs, reported);
    } else {
      NewlyFailingAreNew(fs[1..], reported);
      assert NewlyFailing(fs, reported) == NewlyFailing(fs[1..], reported);
    }
  }

  lemma NewlyFailingKeepsNoDup(fs: seq<DeviceRecord>, reported: seq<string>)
    ensures NoDup(reported) ==> NoDup(reported + Devices(NewlyFailing(fs, reported)))
  {
    if NoDup(reported) {
      NewlyFailingAreNew(fs, reported);
    }
  }

  /** Every device found is failing (positive count), taken from the dictionary, and not yet reported. */
  lemma {:induction false} NewlyFailingAreFailing(fs: seq<DeviceRecord>, reported: seq<string>)
    ensures forall i :: 0 <= i < |NewlyFailing(fs, reported)| ==>
              && NewlyFailing(fs, reported)[i].errors > 0
              && NewlyFailing(fs, reported)[i].device !in reported
              && NewlyFailing(fs, reported)[i] in fs
    decreases |fs|
  {
    if |fs| > 0 {
      var r := NewlyFailing(fs, reported);
      if fs[0].errors > 0 && fs[0].device !in reported {
        var reported' := reported + [fs[0].device];
        var rest := NewlyFailing(fs[1..], reported');
        NewlyFailingAreFailing(fs[1..], reported');
        assert r == [fs[0]] + rest;
        forall i | 0 <= i < |r|
          ensures r[i].errors > 0 && r[i].device !in reported && r[i] in fs
        {
          if i > 0 {
            assert r[i] == rest[i - 1];
            assert rest[i - 1].device !in reported';
            assert rest[i - 1] in fs[1..];
          }
        }
      } else {
        NewlyFailingAreFailing(fs[1..], reported);
        var rest := NewlyFailing(fs[1..], reported);
        assert r == rest;
        forall i | 0 <= i < |r|
          ensures r[i] in fs
        {
          assert r[i] in fs[1..];
        }
      }
    }
  }

  /** Every entry with a positive count is reported by the end of the loop, now or earlier. */
  lemma {:induction false} FailingGetReported(fs: seq<DeviceRecord>, reported: seq<string>)
    ensures forall i :: 0 <= i < |fs| && fs[i].errors > 0 ==>
              fs[i].device in reported + Devices(NewlyFailing(fs, reported))
    decreases |fs|
  {
    if |fs| > 0 {
      var included := fs[0].errors > 0 && fs[0].device !in reported;
      var reported' := if included then reported + [fs[0].device] else reported;
      FailingGetReported(fs[1..], reported');
      var rest := NewlyFailing(fs[1..], reported');
      var all := reported + Devices(NewlyFailing(fs, reported));
      if included {
        NewlyFailingTakes(fs, reported);
      } else {
        assert all == reported' + Devices(rest);
      }
      forall i | 0 <= i < |fs| && fs[i].errors > 0
        ensures fs[i].device in all
      {
        if i > 0 {
          assert fs[i] == fs[1..][i - 1];
        } else if included {
          assert all[|reported|] == fs[0].device;
        }
      }
    }
  }

  function DeviceLines(records: seq<DeviceRecord>): (r: seq<string>)
    ensures |r| == |records|
    ensures forall i :: 0 <= i < |records| ==>
              r[i] == FailingDeviceLine(records[i].device, records[i].mountpoint, records[i].errors)
  {
    if |records| == 0 then []
    else [FailingDeviceLine(records[0].device, records[0].mountpoint, records[0].errors)] + DeviceLines(records[1..])
  }

  /** The journal part of a report: a separator line and then every buffered line. */
  function JournalSection(journal: seq<string>): seq<string>
  {
    if journal == [] then [] else [JournalHeader] + journal
  }

  /**
   One pass of `monitor_and_report`: newly failing devices are reported and
   remembered, the journal buffer is flushed whenever it is non-empty (no
   debounce), and one notification goes out exactly when the assembled body
   is non-empty. The device records and missing flags are left alone, and
   the reported list only grows.
   */
  function ReportCycle(st: Watchd, hostname: string): (r: Step)
    ensures r.state.missingMap == st.missingMap && r.state.failingDevices == st.failingDevices
    ensures r.state.journal == []
    ensures st.reported <= r.state.reported
    ensures NoDup(st.reported) ==> NoDup(r.state.reported)
    ensures forall i :: 0 <= i < |st.failingDevices| && st.failingDevices[i].errors > 0 ==>
              st.failingDevices[i].device in r.state.reported
    ensures |r.sent| == (if |r.state.reported| > |st.reported| || st.journal != [] then 1 else 0)
    ensures |r.sent| == 1 ==>
              && r.sent[0].subject == ErrorsDetectedOn(hostname)
              && r.sent[0].priority == DefaultPriority
              && r.sent[0].lines == DeviceLines(NewlyFailing(st.failingDevices, st.reported)) + JournalSection(st.journal)
  {
    var newly := NewlyFailing(st.failingDevices, st.reported);
    FailingGetReported(st.failingDevices, st.reported);
    NewlyFailingKeepsNoDup(st.failingDevices, st.reported);
    var body := DeviceLines(newly) + JournalSection(st.journal);
    var next := st.(journal := [], reported := st.reported + Devices(newly));
    if body != [] then Step(next, [Send(ErrorsDetectedOn(hostname), body)]) else Step(next, [])
  }

  /** A non-empty journal buffer is always sent, complete and in order, and then emptied. */
  lemma JournalAlwaysFlushed(st: Watchd, hostname: string)
    requires st.journal != []
    ensures var r := ReportCycle(st, hostname);
            && |r.sent| == 1
            && IsSuffix([JournalHeader] + st.journal, r.sent[0].lines)
            && r.state.journal == []
  {
  }

  // ----- the whole script ---------------------------------------------------

  /** What can happen to the script's state, one event at a time. */
  datatype Event =
    | KernelLine(line: string)
    | StatsPass(mountpoint: string, devices: seq<DeviceStats>)
    | MissingCheck(uuid: string, isMissing: bool)
    | Report

  function Apply(st: Watchd, hostname: string, e: Event): Step
  {
    match e
    case KernelLine(line) => Step(st.(journal := Collect(st.journal, line)), [])
    case StatsPass(mountpoint, devices) => Step(st.(failingDevices := RecordStats(st.failingDevices, mountpoint, devices)), [])
    case MissingCheck(uuid, isMissing) => UpdateMissingDevice(st, uuid, isMissing)
    case Report => ReportCycle(st, hostname)
  }

  function Run(st: Watchd, hostname: string, events: seq<Event>): Step
    decreases |events|
  {
    if |events| == 0 then Step(st, [])
    else
      var first := Apply(st, hostname, events[0]);
      var rest := Run(first.state, hostname, events[1..]);
      Step(rest.state, first.sent + rest.sent)
  }

  /** The devices an event puts on a "Device with FAILURES" line: only a report does. */
  function ReportedBy(st: Watchd, e: Event): seq<string>
  {
    if e.Report? then Devices(NewlyFailing(st.failingDevices, st.reported)) else []
  }

  /** The devices that get a "Device with FAILURES" line, report after report, in order. */
  function ReportedDuring(st: Watchd, hostname: string, events: seq<Event>): seq<string>
    decreases |events|
  {
    if |events| == 0 then []
    else ReportedBy(st, events[0]) + ReportedDuring(Apply(st, hostname, events[0]).state, hostname, events[1..])
  }

  /** An event appends to the reported list exactly the devices it reports, keeping it free of repeats. */
  lemma ApplyExtendsReported(st: Watchd, hostname: string, e: Event)
    ensures Apply(st, hostname, e).state.reported == st.reported + ReportedBy(st, e)
    ensures NoDup(st.reported) ==> NoDup(st.reported + ReportedBy(st, e))
  {
    NewlyFailingKeepsNoDup(st.failingDevices, st.reported);
    if !e.Report? {
      assert st.reported + ReportedBy(st, e) == st.reported;
    }
  }

  /** Unfolding a run by its first event. */
  lemma RunFirst(st: Watchd, hostname: string, events: seq<Event>)
    requires |events| > 0
    ensures Run(st, hostname, events).state.reported == Run(Apply(st, hostname, events[0]).state, hostname, events[1..]).state.reported
    ensures ReportedDuring(st, hostname, events)
            == ReportedBy(st, events[0]) + ReportedDuring(Apply(st, hostname, events[0]).state, hostname, events[1..])
  {
  }

  /** Over a run, the reported list grows by exactly the devices reported, in order. */
  lemma {:induction false} RunAppendsReported(st: Watchd, hostname: string, events: seq<Event>)
    ensures Run(st, hostname, events).state.reported == st.reported + ReportedDuring(st, hostname, events)
    decreases |events|
  {
    if |events| == 0 {
      assert st.reported + ReportedDuring(st, hostname, events) == st.reported;
    } else {
      var next := Apply(st, hostname, events[0]).state;
      var now := ReportedBy(st, events[0]);
      var later := ReportedDuring(next, hostname, events[1..]);
      ApplyExtendsReported(st, hostname, events[0]);
      RunAppendsReported(next, hostname, events[1..]);
      RunFirst(st, hostname, events);
      AppendAssoc(st.reported, now, later);
    }
  }

  /** Over a run, the reported list stays free of repeats. */
  lemma {:induction false} RunKeepsReportedNoDup(st: Watchd, hostname: string, events: seq<Event>)
    requires NoDup(st.reported)
    ensures NoDup(Run(st, hostname, events).state.reported)
    decreases |events|
  {
    if |events| > 0 {
      var next := Apply(st, hostname, events[0]).state;
      ApplyExtendsReported(st, hostname, events[0]);
      RunKeepsReportedNoDup(next, hostname, events[1..]);
      RunFirst(st, hostname, events);
    }
  }

  /**
   Report-at-most-once: over any run, the reported list is the initial one
   followed by every device line ever sent, and it holds no repeats, so no
   device is reported twice in the process lifetime, even when its count
   drops to zero and rises again.
   */
  lemma EachDeviceReportedAtMostOnce(st: Watchd, hostname: string, events: seq<Event>)
    requires NoDup(st.reported)
    ensures Run(st, hostname, events).state.reported == st.reported + ReportedDuring(st, hostname, events)
    ensures NoDup(st.reported + ReportedDuring(st, hostname, events))
  {
    RunAppendsReported(st, hostname, events);
    RunKeepsReportedNoDup(st, hostname, events);
  }
}
