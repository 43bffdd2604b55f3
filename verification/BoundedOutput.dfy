/** Buffers and log files that keep a bounded amount of a process's output. */
module BoundedOutput {
  import opened Basics

  type Bytes = seq<bv8>

  function Least(a: int, b: int): int {
    if a < b then a else b
  }

  /** The first `limit` bytes, none when the limit is negative. */
  function First(s: Bytes, limit: int): (kept: Bytes)
    ensures kept <= s
    ensures if |s| <= limit then kept == s else |kept| == if limit < 0 then 0 else limit
  {
    if limit <= 0 then [] else s[..Least(limit, |s|)]
  }

  function Last(s: Bytes, limit: nat): (kept: Bytes)
    ensures |kept| <= |s| && kept == s[|s| - |kept|..]
    ensures if |s| <= limit then kept == s else |kept| == limit
  {
    s[|s| - Least(limit, |s|)..]
  }

  /** A write adds what still fits. */
  lemma FirstOfMore(s: Bytes, value: Bytes, limit: int)
    ensures First(s + value, limit) == First(s, limit) + First(value, limit - |First(s, limit)|)
  {
  }

  // ---- Buffers -------------------------------------------------------------------------

  /** The buffer of a worker's one-off command. `written` is everything handed to it. */
  class BoundedBuffer {
    var buffer: Bytes
    const limit: int
    var truncated: bool
    ghost var written: Bytes
    ghost var writes: nat

    ghost predicate Valid()
      reads this
    {
      && buffer == First(written, limit)
      && (truncated <==> writes > 0 && |written| > limit)
      && (writes == 0 ==> written == [])
    }

    constructor (limit: int)
      ensures Valid() && this.limit == limit && written == [] && writes == 0
    {
      this.limit := limit;
      buffer, truncated, written, writes := [], false, [], 0;
    }

    method Write(value: Bytes) returns (count: nat)
      requires Valid()
      modifies this
      ensures Valid() && written == old(written) + value && writes == old(writes) + 1
      ensures count == |value|
    {
      FirstOfMore(written, value, limit);
      count := |value|;
      var remaining := limit - |buffer|;
      if remaining > 0 {
        if remaining > count {
          remaining := count;
        }
        buffer := buffer + value[..remaining];
      }
      if count > remaining {
        truncated := true;
      }
      written, writes := written + value, writes + 1;
    }
  }

  /** The buffer of a Kubernetes response. */
  class CappedBuffer {
    var buffer: Bytes
    const limit: int
    ghost var written: Bytes

    ghost predicate Valid()
      reads this
    {
      buffer == First(written, limit)
    }

    constructor (limit: int)
      ensures Valid() && this.limit == limit && written == []
    {
      this.limit := limit;
      buffer, written := [], [];
    }

    method Write(value: Bytes) returns (original: nat)
      requires Valid()
      modifies this
      ensures Valid() && written == old(written) + value
      ensures original == |value|
    {
      FirstOfMore(written, value, limit);
      original := |value|;
      var remaining := limit - |buffer|;
      if remaining > 0 {
        var kept := value;
        if |kept| > remaining {
          kept := kept[..remaining];
        }
        buffer := buffer + kept;
      }
      written := written + value;
    }
  }

  // ---- Log files -------------------------------------------------------------------------

  /** The two files of a worker log: the current one, and the one rotated out. */
  class LogFiles {
    var current: Option<Bytes>
    var backup: Option<Bytes>

    constructor (current: Option<Bytes>, backup: Option<Bytes>)
      ensures this.current == current && this.backup == backup
    {
      this.current, this.backup := current, backup;
    }
  }

  predicate Fits(file: Option<Bytes>, limit: int) {
    file.Some? ==> |file.value| <= limit
  }

  /** Which of the file system's steps fail while a log is opened. */
  datatype Faults = Faults(stat: bool, remove: bool, rename: bool, truncate: bool, open: bool, statOpened: bool)

  datatype LogError = LimitNotPositive | FileError

  predicate Rotates(current: Option<Bytes>, limit: int) {
    current.Some? && |current.value| >= limit
  }

  /** An open log. `offered` is everything written to it since it was opened. */
  class CappedWorkerLog {
    const files: LogFiles
    const startOffset: nat
    var remaining: int
    ghost const limit: int
    ghost var offered: Bytes

    ghost predicate Valid()
      reads this, files
    {
      && files.current.Some?
      && remaining == limit - |files.current.value| && 0 <= remaining
      && startOffset < limit && startOffset <= |files.current.value|
      && files.current.value[startOffset..] == First(offered, limit - startOffset)
    }

    constructor (files: LogFiles, limit: int)
      requires files.current.Some? && |files.current.value| < limit
      ensures Valid() && this.files == files && this.limit == limit
      ensures startOffset == |files.current.value| && offered == []
    {
      this.files, this.limit := files, limit;
      startOffset, remaining := |files.current.value|, limit - |files.current.value|;
      offered := [];
    }

    /** A write without a file error. The log keeps the first bytes written to it, as many as
        fit into the file, and drops the rest while telling the writer that all went well. */
    method Write(value: Bytes) returns (count: nat)
      requires Valid()
      modifies this`remaining, this`offered, files`current
      ensures Valid() && offered == old(offered) + value && count == |value|
      ensures old(files.current.value) <= files.current.value
    {
      FirstOfMore(offered, value, limit - startOffset);
      count := |value|;
      offered := offered + value;
      if remaining <= 0 {
        return;
      }
      var writable := Least(count, remaining);
      Appended(files.current.value, value[..writable], startOffset);
      files.current := Some(files.current.value + value[..writable]);
      remaining := remaining - writable;
    }

    /** A write of which the file takes only the first `written` bytes. */
    method WriteShort(value: Bytes, written: nat) returns (count: nat)
      requires Valid() && written < Least(|value|, remaining)
      modifies this`remaining, this`offered, files`current
      ensures Valid() && count == written && offered == old(offered) + value[..written]
      ensures files.current.value == old(files.current.value) + value[..written]
    {
      FirstOfMore(offered, value[..written], limit - startOffset);
      Appended(files.current.value, value[..written], startOffset);
      files.current := Some(files.current.value + value[..written]);
      remaining := remaining - written;
      offered := offered + value[..written];
      count := written;
    }
  }

  lemma Appended(s: Bytes, more: Bytes, k: nat)
    requires k <= |s|
    ensures (s + more)[k..] == s[k..] + more
  {
  }

  /** No step on the way to an open log fails. */
  predicate Opens(faults: Faults, rotates: bool) {
    && !faults.stat && !faults.open && !faults.statOpened
    && (rotates ==> !faults.remove && !faults.rename && !faults.truncate)
  }

  /** Opening a log, after moving a full one aside. */
  method OpenCappedWorkerLog(files: LogFiles, limit: int, faults: Faults) returns (r: Result<CappedWorkerLog, LogError>)
    modifies files
    ensures r.Ok? <==> limit > 0 && Opens(faults, Rotates(old(files.current), limit))
    ensures r.Ok? ==>
              && fresh(r.value) && r.value.Valid() && r.value.files == files && r.value.limit == limit
              && r.value.offered == [] && r.value.startOffset == |files.current.value|
    ensures r.Ok? && Rotates(old(files.current), limit) ==>
              files.current == Some([]) && files.backup == Some(old(files.current).value[..limit])
    ensures r.Ok? && !Rotates(old(files.current), limit) ==>
              files.backup == old(files.backup) &&
              files.current == if old(files.current) == None then Some([]) else old(files.current)
    ensures limit <= 0 ==>
              r == Err(LimitNotPositive) && files.current == old(files.current) && files.backup == old(files.backup)
    ensures old(Fits(files.current, limit) && Fits(files.backup, limit)) ==>
            Fits(files.current, limit) && Fits(files.backup, limit)
  {
    if limit <= 0 {
      return Err(LimitNotPositive);
    }
    if faults.stat {
      return Err(FileError);
    }
    if Rotates(files.current, limit) {
      var rotated := Rotate(files, limit, faults);
      if !rotated {
        return Err(FileError);
      }
    }
    if faults.open {
      return Err(FileError);
    }
    if files.current == None {
      files.current := Some([]);
    }
    if faults.statOpened {
      return Err(FileError);
    }
    var log := new CappedWorkerLog(files, limit);
    r := Ok(log);
  }

  method Rotate(files: LogFiles, limit: nat, faults: Faults) returns (ok: bool)
    requires Rotates(files.current, limit)
    modifies files
    ensures ok <==> !faults.remove && !faults.rename && !faults.truncate
    ensures ok ==> files.current == None && files.backup == Some(old(files.current).value[..limit])
    ensures old(Fits(files.current, limit) && Fits(files.backup, limit)) ==>
            Fits(files.current, limit) && Fits(files.backup, limit)
  {
    if faults.remove {
      return false;
    }
    files.backup := None;
    if faults.rename {
      return false;
    }
    files.backup, files.current := files.current, None;
    if faults.truncate {
      return false;
    }
    files.backup := Some(files.backup.value[..limit]);
    ok := true;
  }

  /** readFileTailSince: `size` is the file's size when it was asked for, `content` what the
      file holds when it is read. */
  method ReadFileTailSince(content: Bytes, size: nat, startOffset: nat, limit: nat) returns (data: Bytes)
    ensures |data| <= limit
    ensures startOffset <= |content| ==> Within(data, content[startOffset..])
    ensures startOffset > |content| ==> data == []
    ensures startOffset <= size == |content| ==> data == Last(content[startOffset..], limit)
  {
    var start := size - limit;
    if start < startOffset {
      start := startOffset;
    }
    if start >= |content| {
      data := [];
      if startOffset <= |content| {
        StretchOfSuffix(content, startOffset, |content|, |content|);
      }
    } else {
      var end := Least(start + limit, |content|);
      data := content[start..end];
      StretchOfSuffix(content, startOffset, start, end);
      LastOfSuffix(content, startOffset, limit);
    }
  }

  /** `part` is a stretch of `whole`. */
  ghost predicate Within(part: Bytes, whole: Bytes) {
    exists i, j | 0 <= i <= j <= |whole| :: part == whole[i..j]
  }

  lemma StretchOfSuffix(s: Bytes, from: nat, i: nat, j: nat)
    requires from <= i <= j <= |s|
    ensures Within(s[i..j], s[from..])
  {
    assert s[from..][i - from..j - from] == s[i..j];
  }

  lemma LastOfSuffix(s: Bytes, from: nat, limit: nat)
    requires from <= |s|
    ensures Last(s[from..], limit) == if |s| - limit < from then s[from..] else s[|s| - limit..]
  {
    var suffix := s[from..];
    if |suffix| >= limit {
      assert suffix[|suffix| - limit..] == s[|s| - limit..];
    }
  }

  /** The startup diagnostic of an incarnation quotes nothing that an earlier one wrote: it is
      the end of what this incarnation's log kept. */
  method StartupTail(log: CappedWorkerLog, limit: nat) returns (data: Bytes)
    requires log.Valid()
    ensures data == Last(First(log.offered, log.limit - log.startOffset), limit)
  {
    var content := log.files.current.value;
    data := ReadFileTailSince(content, |content|, log.startOffset, limit);
  }
}
