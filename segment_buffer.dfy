// The segment ring buffer of the worker (worker/src/buffer-manager.ts): the
// recorder names each segment after its start time in milliseconds, a
// watchdog bounds each recording, and a periodic sweep deletes the segment
// files older than the retention window.

module SegmentBuffer {
  import opened Common

  const SegmentPrefix: string := "segment_"
  const SegmentSuffix: string := ".mp4"

  /** Pause of the recorder loop after a failed recording, in ms. */
  const RetryDelayMs: int := 5000

  /** Extra time the watchdog allows beyond the segment duration, in s. */
  const WatchdogGraceSeconds: int := 15

  // ---------------------------------------------------------------------
  // Configuration

  /** The defaults of `VIDEO_SEGMENT_DURATION` (s) and
      `VIDEO_BUFFER_RETENTION_MINUTES`. */
  const DefaultSegmentSeconds: int := 30
  const DefaultRetentionMinutes: int := 5

  /** `parseInt(process.env.X || default, 10)`: an unset or empty variable
      takes the default text; a text without leading digits is NaN (None). */
  function EnvNumber(env: Option<string>, default: string): (r: Option<int>)
  {
    ParseInt(if env.None? || env.value == "" then default else env.value)
  }

  /** `VIDEO_SEGMENT_DURATION` in seconds. */
  function SegmentDuration(env: Option<string>): Option<int>
  {
    EnvNumber(env, IntToString(DefaultSegmentSeconds))
  }

  /** `VIDEO_BUFFER_RETENTION_MINUTES`. */
  function RetentionMinutes(env: Option<string>): Option<int>
  {
    EnvNumber(env, IntToString(DefaultRetentionMinutes))
  }

  /** The sweep period: one sweep per segment duration (NaN stays NaN). */
  function CleanupIntervalMs(segmentDuration: Option<int>): (r: Option<int>)
    ensures r.Some? <==> segmentDuration.Some?
    ensures r.Some? ==> r.value == segmentDuration.value * 1000
  {
    if segmentDuration.None? then None else Some(segmentDuration.value * 1000)
  }

  /** The watchdog delay of one recording. */
  function WatchdogMs(segmentDuration: Option<int>): (r: Option<int>)
    ensures r.Some? <==> segmentDuration.Some?
    ensures r.Some? ==> r.value == segmentDuration.value * 1000 + WatchdogGraceSeconds * 1000
  {
    if segmentDuration.None? then None else Some((segmentDuration.value + WatchdogGraceSeconds) * 1000)
  }

  /** The retention window in ms. */
  function RetentionMs(retentionMinutes: Option<int>): (r: Option<int>)
    ensures r.Some? <==> retentionMinutes.Some?
    ensures r.Some? ==> r.value == retentionMinutes.value * 60000
  {
    if retentionMinutes.None? then None else Some(retentionMinutes.value * 60 * 1000)
  }

  /** An unset variable reads back its default. */
  lemma {:induction false} UnsetEnvIsDefault(d: int)
    ensures EnvNumber(None, IntToString(d)) == Some(d)
  {
    ParseIntOfIntToString(d);
  }

  /** With no environment: 30 s segments swept every 30 s, a watchdog at
      45 s and a retention window of 5 minutes. */
  lemma {:induction false} DefaultTimings()
    ensures SegmentDuration(None) == Some(30)
    ensures RetentionMinutes(None) == Some(5)
    ensures CleanupIntervalMs(SegmentDuration(None)) == Some(30000)
    ensures WatchdogMs(SegmentDuration(None)) == Some(45000)
    ensures RetentionMs(RetentionMinutes(None)) == Some(300000)
  {
    UnsetEnvIsDefault(DefaultSegmentSeconds);
    UnsetEnvIsDefault(DefaultRetentionMinutes);
  }

  /** Setting a variable to the empty string is the same as leaving it
      unset. */
  lemma {:induction false} EmptyEnvIsDefault(default: string)
    ensures EnvNumber(Some(""), default) == EnvNumber(None, default)
  {
  }

  // ---------------------------------------------------------------------
  // Segment names

  /** The files the buffer owns: `segment_*.mp4`. */
  predicate IsSegmentFile(f: string)
  {
    StartsWith(f, SegmentPrefix) && EndsWith(f, SegmentSuffix)
  }

  /** The file name of a segment started at `timestamp` (`Date.now()`). */
  function SegmentName(timestamp: int): (r: string)
    ensures IsSegmentFile(r)
    ensures |r| == |IntToString(timestamp)| + |SegmentPrefix| + |SegmentSuffix|
    ensures r[|SegmentPrefix|..|r| - |SegmentSuffix|] == IntToString(timestamp)
  {
    var r := SegmentPrefix + IntToString(timestamp) + SegmentSuffix;
    assert r[..|SegmentPrefix|] == SegmentPrefix;
    assert r[|r| - |SegmentSuffix|..] == SegmentSuffix;
    r
  }

  /** Distinct start times give distinct files. */
  lemma {:induction false} SegmentNameInjective(t1: int, t2: int)
    requires SegmentName(t1) == SegmentName(t2)
    ensures t1 == t2
  {
    var n1 := SegmentName(t1);
    assert IntToString(t1) == n1[|SegmentPrefix|..|n1| - |SegmentSuffix|];
    ParseIntOfIntToString(t1);
    ParseIntOfIntToString(t2);
  }

  // ---------------------------------------------------------------------
  // One recording (`createSegment`)

  /** The events a recording's promise can observe. */
  datatype ProcessEvent = Closed(code: Option<int>) | SpawnFailed | WatchdogFired

  datatype Settlement = Pending | Resolved | Rejected

  /** What the close handler logs. */
  datatype CloseReport = Completed | ExitedWithCode(code: int) | NoReport

  /** The settlement of a recording that observed `events` in order: the
      first event decides it, because every handler clears the watchdog
      and a promise settles once. */
  function SettlementOf(events: seq<ProcessEvent>): (s: Settlement)
  {
    if events == [] then Pending
    else if events[0].SpawnFailed? then Rejected
    else Resolved
  }

  class Recording {
    /** `segment_<start>.mp4`. */
    const filename: string
    /** The watchdog timer is set and has not fired or been cleared. */
    var watchdogArmed: bool
    /** SIGINT was sent to ffmpeg. */
    var killed: bool
    var settlement: Settlement

    ghost predicate Valid()
      reads this
    {
      watchdogArmed <==> settlement == Pending
    }

    /** Spawning ffmpeg and arming the watchdog. */
    constructor (startedAt: int)
      ensures Valid()
      ensures filename == SegmentName(startedAt)
      ensures watchdogArmed && !killed && settlement == Pending
    {
      filename := SegmentName(startedAt);
      watchdogArmed := true;
      killed := false;
      settlement := Pending;
    }

    method Settle(s: Settlement)
      requires s != Pending
      modifies this
      ensures settlement == if old(settlement) == Pending then s else old(settlement)
      ensures watchdogArmed == old(watchdogArmed) && killed == old(killed)
    {
      if settlement == Pending {
        settlement := s;
      }
    }

    /** The watchdog callback: kill the recording and resolve. A cleared
        timer does not fire. */
    method OnWatchdog()
      requires Valid()
      modifies this
      ensures Valid()
      ensures old(watchdogArmed) ==> killed && settlement == Resolved && !watchdogArmed
      ensures !old(watchdogArmed) ==> unchanged(this)
    {
      if watchdogArmed {
        watchdogArmed := false;
        killed := true;
        Settle(Resolved);
      }
    }

    /** The 'close' handler: clear the watchdog, report, resolve whatever the
        exit code. */
    method OnClose(code: Option<int>) returns (report: CloseReport)
      requires Valid()
      modifies this
      ensures Valid()
      ensures !watchdogArmed && killed == old(killed)
      ensures settlement == if old(settlement) == Pending then Resolved else old(settlement)
      ensures report == Completed <==> code == Some(0)
      ensures report == NoReport <==> code.None?
      ensures report.ExitedWithCode? ==> code == Some(report.code) && report.code != 0
    {
      watchdogArmed := false;
      if code == Some(0) {
        report := Completed;
      } else if code.Some? {
        report := ExitedWithCode(code.value);
      } else {
        report := NoReport;
      }
      Settle(Resolved);
    }

    /** The 'error' handler: clear the watchdog and reject. */
    method OnError()
      requires Valid()
      modifies this
      ensures Valid()
      ensures !watchdogArmed && killed == old(killed)
      ensures settlement == if old(settlement) == Pending then Rejected else old(settlement)
    {
      watchdogArmed := false;
      Settle(Rejected);
    }

    /** Feeds the recording its events in order. The promise settles on the
        first event; it rejects only when that event is a spawn failure, and
        ffmpeg is killed only when the watchdog came first. */
    method Observe(events: seq<ProcessEvent>)
      requires Valid() && watchdogArmed && !killed
      modifies this
      ensures Valid()
      ensures settlement == SettlementOf(events)
      ensures settlement == Rejected <==> events != [] && events[0] == SpawnFailed
      ensures settlement == Pending <==> events == []
      ensures killed <==> events != [] && events[0] == WatchdogFired
    {
      var i := 0;
      while i < |events|
        invariant 0 <= i <= |events|
        invariant Valid()
        invariant settlement == SettlementOf(events[..i])
        invariant killed <==> i > 0 && events[0] == WatchdogFired
      {
        match events[i] {
          case Closed(code) =>
            var _ := OnClose(code);
          case SpawnFailed =>
            OnError();
          case WatchdogFired =>
            OnWatchdog();
        }
        i := i + 1;
      }
      assert events[..i] == events;
    }
  }

  // ---------------------------------------------------------------------
  // Retention sweep (`cleanupOldSegments`)

  /** A listed file the sweep deletes: a segment file strictly older than
      the retention window. With a NaN retention no comparison holds. */
  predicate Expired(f: string, mtime: int, now: int, retentionMinutes: Option<int>)
  {
    IsSegmentFile(f) && retentionMinutes.Some? && now - mtime > retentionMinutes.value * 60000
  }

  /** The directory after sweeping the files of `listing`. */
  function Swept(dir: map<string, int>, listing: seq<string>, now: int,
                 retentionMinutes: Option<int>): (r: map<string, int>)
    ensures r.Keys <= dir.Keys
    ensures forall f :: f in r ==> r[f] == dir[f]
  {
    map f | f in dir && !(f in listing && Expired(f, dir[f], now, retentionMinutes)) :: dir[f]
  }

  /** After a full sweep, every listed segment file that is left is within
      the retention window, and every file that is gone was an expired
      segment. */
  lemma {:induction false} SweptLeavesFreshSegments(dir: map<string, int>, listing: seq<string>,
                                                  now: int, minutes: int)
    requires forall f :: f in dir <==> f in listing
    ensures forall f :: f in Swept(dir, listing, now, Some(minutes)) && IsSegmentFile(f) ==>
      now - dir[f] <= minutes * 60000
    ensures forall f :: f in dir && f !in Swept(dir, listing, now, Some(minutes)) ==>
      IsSegmentFile(f) && now - dir[f] > minutes * 60000
  {
  }

  /** Files that are not `segment_*.mp4` survive every sweep unchanged. */
  lemma {:induction false} SweptKeepsOtherFiles(dir: map<string, int>, listing: seq<string>,
                                              now: int, retentionMinutes: Option<int>, f: string)
    requires f in dir && !IsSegmentFile(f)
    ensures f in Swept(dir, listing, now, retentionMinutes)
    ensures Swept(dir, listing, now, retentionMinutes)[f] == dir[f]
  {
  }

  /** A segment exactly as old as the retention window is kept. */
  lemma {:induction false} SweptKeepsBoundary(dir: map<string, int>, listing: seq<string>,
                                            now: int, minutes: int, f: string)
    requires f in dir && now - dir[f] == minutes * 60000
    ensures f in Swept(dir, listing, now, Some(minutes))
  {
  }

  /** A NaN retention deletes nothing. */
  lemma {:induction false} SweptWithNaNKeepsAll(dir: map<string, int>, listing: seq<string>, now: int)
    ensures Swept(dir, listing, now, None) == dir
  {
  }

  /** Sweeping twice at the same instant removes nothing more. */
  lemma {:induction false} SweptIdempotent(dir: map<string, int>, listing: seq<string>,
                                         now: int, retentionMinutes: Option<int>)
    ensures Swept(Swept(dir, listing, now, retentionMinutes), listing, now, retentionMinutes)
         == Swept(dir, listing, now, retentionMinutes)
  {
  }

  /** Sweeping one more listed entry removes it exactly when it is an
      expired segment. */
  lemma {:induction false} SweptStep(dir: map<string, int>, done: seq<string>, f: string,
                                   now: int, retentionMinutes: Option<int>)
    requires f in dir && f !in done
    ensures Swept(dir, done + [f], now, retentionMinutes) ==
      if Expired(f, dir[f], now, retentionMinutes)
      then Swept(dir, done, now, retentionMinutes) - {f}
      else Swept(dir, done, now, retentionMinutes)
  {
  }

  /** The buffer directory: each file's name and modification time in ms. */
  class BufferDirectory {
    var files: map<string, int>

    constructor (files0: map<string, int>)
      ensures files == files0
    {
      files := files0;
    }

    /** Records a finished segment file. */
    method AddSegment(startedAt: int, mtime: int)
      modifies this
      ensures files == old(files)[SegmentName(startedAt) := mtime]
    {
      files := files[SegmentName(startedAt) := mtime];
    }

    /** `cleanupOldSegments`: walk the listing from `readdir`, skip names
        that are not segments, and unlink each segment whose age exceeds
        the retention. `failAt` is the position of the entry whose `stat` or
        `unlink` throws: the catch ends the whole sweep there, so the
        entries before it have been processed and the rest have not. A
        failing `readdir` is `failAt == Some(0)`. */
    method CleanupOldSegments(listing: seq<string>, now: int, retentionMinutes: Option<int>,
                              failAt: Option<nat>)
      requires forall f :: f in files <==> f in listing
      requires forall i, j :: 0 <= i < j < |listing| ==> listing[i] != listing[j]
      modifies this
      ensures var done := if failAt.Some? && failAt.value < |listing| then failAt.value else |listing|;
        files == Swept(old(files), listing[..done], now, retentionMinutes)
    {
      var stop := if failAt.Some? && failAt.value < |listing| then failAt.value else |listing|;
      ghost var dir := files;
      var i := 0;
      while i < stop
        invariant 0 <= i <= stop
        invariant files == Swept(dir, listing[..i], now, retentionMinutes)
      {
        var f := listing[i];
        assert listing[..i + 1] == listing[..i] + [f];
        assert f !in listing[..i];
        SweptStep(dir, listing[..i], f, now, retentionMinutes);
        if IsSegmentFile(f) {
          var mtime := files[f];
          if retentionMinutes.Some? && now - mtime > retentionMinutes.value * 60 * 1000 {
            files := files - {f};
          }
        }
        i := i + 1;
      }
    }
  }

  // ---------------------------------------------------------------------
  // The recorder loop (`main`)

  /** The pauses of the first `|failed|` rounds of the endless recorder
      loop: none after a recording that settled, `RetryDelayMs` after one
      whose promise rejected. */
  method RecorderPauses(failed: seq<bool>) returns (pauses: seq<int>, total: int)
    ensures |pauses| == |failed|
    ensures forall i :: 0 <= i < |failed| ==> pauses[i] == if failed[i] then RetryDelayMs else 0
    ensures total == RetryDelayMs * Failures(failed)
  {
    pauses := [];
    total := 0;
    var i := 0;
    while i < |failed|
      invariant 0 <= i <= |failed|
      invariant |pauses| == i
      invariant forall j :: 0 <= j < i ==> pauses[j] == if failed[j] then RetryDelayMs else 0
      invariant total == RetryDelayMs * Failures(failed[..i])
    {
      assert failed[..i + 1] == failed[..i] + [failed[i]];
      FailuresAppend(failed[..i], failed[i]);
      var pause := if failed[i] then RetryDelayMs else 0;
      pauses := pauses + [pause];
      total := total + pause;
      i := i + 1;
    }
    assert failed[..i] == failed;
  }

  /** The number of rejected recordings. */
  function Failures(failed: seq<bool>): (n: nat)
    ensures n <= |failed|
  {
    if failed == [] then 0 else Failures(failed[..|failed| - 1]) + (if failed[|failed| - 1] then 1 else 0)
  }

  lemma {:induction false} FailuresAppend(s: seq<bool>, b: bool)
    ensures Failures(s + [b]) == Failures(s) + (if b then 1 else 0)
  {
    assert (s + [b])[..|s|] == s;
  }
}
