/** The flight recorder: a bounded record of a session's latest output, against the log of
    everything it was ever given. */
module FlightRecorder {

  type Byte = b: int | 0 <= b < 256

  const MAX_BYTES := 64 * 1024
  const MAX_RECORDS := 4096

  datatype Record =
    | Output(offset: int, data: seq<Byte>, revision: nat)
    | Resized(offset: int, width: int, height: int)

  datatype Dimensions = Dimensions(width: int, height: int)

  function Size(r: Record): nat {
    if r.Output? then |r.data| else 0
  }

  function Total(log: seq<Record>): nat {
    if log == [] then 0 else Size(log[0]) + Total(log[1..])
  }

  predicate Fits(log: seq<Record>) {
    Total(log) <= MAX_BYTES && |log| <= MAX_RECORDS
  }

  /** The dimensions in effect after a log that starts at `initial`. */
  function After(log: seq<Record>, initial: Dimensions): Dimensions
    decreases |log|
  {
    if log == [] then initial
    else
      var last := log[|log| - 1];
      if last.Resized? then Dimensions(last.width, last.height) else After(log[..|log| - 1], initial)
  }

  /** Where the longest suffix that fits begins, looking no further left than `from`. */
  function FitFrom(log: seq<Record>, from: nat): (start: nat)
    requires from <= |log|
    ensures from <= start <= |log|
    decreases |log| - from
  {
    if Fits(log[from..]) then from else FitFrom(log, from + 1)
  }

  function Start(log: seq<Record>): (start: nat)
    ensures start <= |log|
  {
    FitFrom(log, 0)
  }

  lemma {:induction false} FitFromIsLeast(log: seq<Record>, from: nat, k: nat)
    requires from <= k <= |log|
    ensures Fits(log[FitFrom(log, from)..])
    ensures k < FitFrom(log, from) ==> !Fits(log[k..])
    decreases |log| - from
  {
    if !Fits(log[from..]) {
      FitFromIsLeast(log, from + 1, if k == from then from + 1 else k);
    }
  }

  /** The suffix kept fits, and no longer one does. */
  lemma StartIsLeast(log: seq<Record>, k: nat)
    requires k <= |log|
    ensures Fits(log[Start(log)..])
    ensures k < Start(log) ==> !Fits(log[k..])
  {
    FitFromIsLeast(log, 0, k);
  }

  lemma {:induction false} TotalAppend(first: seq<Record>, second: seq<Record>)
    ensures Total(first + second) == Total(first) + Total(second)
  {
    if first == [] {
      assert first + second == second;
    } else {
      assert (first + second)[1..] == first[1..] + second;
      TotalAppend(first[1..], second);
    }
  }

  /** A longer log never keeps a record that was already dropped. */
  lemma StartGrows(log: seq<Record>, r: Record)
    ensures Start(log) <= Start(log + [r])
  {
    var start := Start(log + [r]);
    if start < Start(log) {
      assert (log + [r])[start..] == log[start..] + [r];
      TotalAppend(log[start..], [r]);
      StartIsLeast(log + [r], start);
      StartIsLeast(log, start);
    }
  }

  /** What a recording must hold for everything ever logged. */
  datatype Recording = Recording(dimensions: Dimensions, droppedBytes: nat, records: seq<Record>)

  function RecordingOf(log: seq<Record>, initial: Dimensions): Recording {
    var start := Start(log);
    Recording(After(log[..start], initial), Total(log[..start]), log[start..])
  }

  lemma {:induction false} AfterAppend(first: seq<Record>, second: seq<Record>, initial: Dimensions)
    ensures After(first + second, initial) == After(second, After(first, initial))
    decreases |second|
  {
    if second == [] {
      assert first + second == first;
    } else {
      var n := |second| - 1;
      assert (first + second)[..|first| + n] == first + second[..n];
      AfterAppend(first, second[..n], initial);
    }
  }

  /** The output that a log holds. */
  function OutputOf(log: seq<Record>): seq<Byte> {
    if log == [] then [] else (if log[0].Output? then log[0].data else []) + OutputOf(log[1..])
  }

  lemma {:induction false} TotalIsOutput(log: seq<Record>)
    ensures Total(log) == |OutputOf(log)|
  {
    if log != [] {
      TotalIsOutput(log[1..]);
    }
  }

  lemma {:induction false} OutputAppend(first: seq<Record>, second: seq<Record>)
    ensures OutputOf(first + second) == OutputOf(first) + OutputOf(second)
  {
    if first == [] {
      assert first + second == second && OutputOf(first) + OutputOf(second) == OutputOf(second);
    } else {
      var data := if first[0].Output? then first[0].data else [];
      assert (first + second)[1..] == first[1..] + second;
      OutputAppend(first[1..], second);
      assert data + (OutputOf(first[1..]) + OutputOf(second)) == (data + OutputOf(first[1..])) + OutputOf(second);
    }
  }

  /** Of the suffixes within both bounds, the one from `Start` on is the longest. */
  lemma LongestSuffix(log: seq<Record>, k: nat)
    requires k <= |log|
    ensures |OutputOf(log[Start(log)..])| <= 65536 && |log| - Start(log) <= 4096
    ensures k < Start(log) ==> |OutputOf(log[k..])| > 65536 || |log| - k > 4096
  {
    StartIsLeast(log, k);
    TotalIsOutput(log[k..]);
    TotalIsOutput(log[Start(log)..]);
  }

  lemma DroppedOutput(log: seq<Record>, at: nat)
    requires at <= |log|
    ensures Total(log[..at]) <= |OutputOf(log)|
    ensures OutputOf(log[at..]) == OutputOf(log)[Total(log[..at])..]
  {
    assert log == log[..at] + log[at..];
    OutputAppend(log[..at], log[at..]);
    TotalIsOutput(log[..at]);
  }

  lemma DimensionsThrough(log: seq<Record>, at: nat, initial: Dimensions)
    requires at <= |log|
    ensures After(log[at..], After(log[..at], initial)) == After(log, initial)
  {
    assert log == log[..at] + log[at..];
    AfterAppend(log[..at], log[at..], initial);
  }

  /** A recording is a suffix of the log of at most 65536 bytes of output and 4096 records, and no
      longer suffix is; the output it holds is all there ever was but for as many bytes as it counts
      as dropped; and resizing from its dimensions through its records leads to the current
      dimensions. */
  lemma RecordingIsFaithful(log: seq<Record>, initial: Dimensions)
    ensures var (r, all) := (RecordingOf(log, initial), OutputOf(log));
            && |r.records| <= |log| && r.records == log[|log| - |r.records|..]
            && |OutputOf(r.records)| <= 65536 && |r.records| <= 4096
            && (forall k | 0 <= k < |log| - |r.records| :: |OutputOf(log[k..])| > 65536 || |log| - k > 4096)
            && r.droppedBytes <= |all| && OutputOf(r.records) == all[r.droppedBytes..]
            && After(r.records, r.dimensions) == After(log, initial)
  {
    forall k | 0 <= k <= |log| {
      LongestSuffix(log, k);
    }
    DroppedOutput(log, Start(log));
    DimensionsThrough(log, Start(log), initial);
  }

  /** A sequence the terminal did not support, and how often it came. */
  type Unsupported = (string, nat)

  /** What is handed out. Times are counted from an epoch of their own, offsets from `start`. */
  datatype FlightRecording = FlightRecording(
    profile: string,
    start: int,
    captured: int,
    recording: Recording,
    unsupported: seq<Unsupported>)

  /** Dropping from the left first fits at the start of the longest suffix that fits. */
  lemma DropUntilFit(log: seq<Record>, at: nat)
    requires at <= Start(log)
    ensures at == Start(log) <==> (Total(log[at..]) <= MAX_BYTES && |log| - at <= MAX_RECORDS)
  {
    StartIsLeast(log, at);
  }

  lemma SuffixOfSuffix(log: seq<Record>, start: nat, drop: nat)
    requires start + drop <= |log|
    ensures log[start..][drop..] == log[start + drop..]
  {
  }

  lemma DropOne(log: seq<Record>, k: nat, initial: Dimensions)
    requires k < |log|
    ensures Total(log[k..]) == Size(log[k]) + Total(log[k + 1..])
    ensures Total(log[..k + 1]) == Total(log[..k]) + Size(log[k])
    ensures After(log[..k + 1], initial) ==
            if log[k].Resized? then Dimensions(log[k].width, log[k].height) else After(log[..k], initial)
  {
    assert log[k..][1..] == log[k + 1..];
    assert log[..k + 1] == log[..k] + [log[k]];
    TotalAppend(log[..k], [log[k]]);
    assert log[..k + 1][..k] == log[..k];
  }

  class Recorder {
    /** When the session began. */
    const start: int
    var width: int
    var height: int
    var droppedBytes: nat
    var bytes: int
    var records: seq<Record>
    /** Everything recorded so far, and the dimensions before it. */
    ghost var log: seq<Record>
    ghost const initial: Dimensions

    /** The fields hold the log from `start` on. */
    ghost predicate HoldsFrom(start: nat)
      reads this
    {
      Tallied(start) && records == log[start..]
    }

    ghost predicate Valid()
      reads this
    {
      HoldsFrom(Start(log))
    }

    constructor (start: int, width: int, height: int)
      ensures Valid() && log == [] && initial == Dimensions(width, height) && this.start == start
    {
      this.start := start;
      this.width, this.height, droppedBytes, bytes, records := width, height, 0, 0, [];
      log, initial := [], Dimensions(width, height);
    }

    method Append(r: Record)
      requires Valid()
      modifies this
      ensures Valid() && log == old(log) + [r]
    {
      StartGrows(log, r);
      ghost var start := Start(log);
      assert (log + [r])[start..] == log[start..] + [r] && (log + [r])[..start] == log[..start];
      TotalAppend(log[start..], [r]);
      records := records + [r];
      bytes := bytes + (if r.Output? then |r.data| else 0);
      log := log + [r];
      Evict(start);
    }

    method Output(at: int, data: seq<Byte>, revision: nat)
      requires Valid()
      modifies this
      ensures Valid() && log == old(log) + [Record.Output(at - start, data, revision)]
    {
      Append(Record.Output(at - start, data, revision));
    }

    method Resize(at: int, newWidth: int, newHeight: int)
      requires Valid()
      modifies this
      ensures Valid() && log == old(log) + [Resized(at - start, newWidth, newHeight)]
    {
      Append(Resized(at - start, newWidth, newHeight));
    }

    /** Drops the oldest records until the rest fits. */
    method Evict(ghost start: nat)
      requires HoldsFrom(start) && start <= Start(log)
      modifies this
      ensures Valid() && log == old(log)
    {
      var drop := CountDropped(start);
      SuffixOfSuffix(log, start, drop);
      records := records[drop..];
    }

    /** Counts records as dropped until the rest fits. */
    method CountDropped(ghost start: nat) returns (drop: nat)
      requires HoldsFrom(start) && start <= Start(log)
      modifies this`width, this`height, this`bytes, this`droppedBytes
      ensures start + drop == Start(log) && Tallied(start + drop)
    {
      drop := 0;
      while drop < |records| && (bytes > MAX_BYTES || |records| - drop > MAX_RECORDS)
        invariant 0 <= drop <= |records|
        invariant start + drop <= Start(log)
        invariant Tallied(start + drop)
      {
        MustDrop(start + drop);
        DropRecord(records[drop], start + drop);
        drop := drop + 1;
      }
      MustDrop(start + drop);
    }

    /** The counters tell whether the log from `at` on is still too long. */
    lemma MustDrop(at: nat)
      requires Tallied(at) && at <= Start(log)
      ensures at < Start(log) <==> bytes > MAX_BYTES || |log| - at > MAX_RECORDS
    {
      DropUntilFit(log, at);
    }

    /** The counters are those of the log from `at` on. */
    ghost predicate Tallied(at: nat)
      reads this
    {
      && at <= |log| && bytes == Total(log[at..]) && droppedBytes == Total(log[..at])
      && Dimensions(width, height) == After(log[..at], initial)
    }

    /** Counts one record as dropped; a dropped resize becomes the starting dimensions. */
    method DropRecord(record: Record, ghost at: nat)
      requires at < |log| && log[at] == record && Tallied(at)
      modifies this`width, this`height, this`bytes, this`droppedBytes
      ensures Tallied(at + 1)
    {
      DropOne(log, at, initial);
      if record.Resized? {
        width, height := record.width, record.height;
      } else {
        bytes := bytes - |record.data|;
        droppedBytes := droppedBytes + |record.data|;
      }
    }

    method Recorded(profile: string, at: int, unsupported: seq<Unsupported>) returns (r: FlightRecording)
      requires Valid()
      ensures r == FlightRecording(profile, start, at - start, RecordingOf(log, initial), unsupported)
    {
      var recording := Recording(Dimensions(width, height), droppedBytes, records);
      r := FlightRecording(profile, start, at - start, recording, unsupported);
    }
  }
}
