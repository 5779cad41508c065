/**
 `GameLogger.kt`: the in-memory queue of log entries, the extra anti-cheat
 entry, which old log files are deleted, and how a log file is read back.

 Timestamps are inputs (`stamp`), the JSON encoder and decoder are
 uninterpreted functions, and a log file is its sequence of lines.
 */
module GameLogger {
  import opened Basics

  datatype LogEntry = LogEntry(
    timestamp: string,
    level: string,
    tag: string,
    message: string,
    playerId: Option<string>,
    action: Option<string>,
    data: Option<string>)

  const AntiCheatTag: string := "ANTI_CHEAT"
  const LogFilePrefix: string := "game_log_"
  const LogFileSuffix: string := ".json"
  const MaxLogFiles: nat := 5
  const WarnLevel: string := "WARN"

  /**
   The logger's observable state: the queue `getLogsForServer` returns, and
   every entry handed to `writeToFile`, in order.
   */
  datatype Logger = Logger(queue: seq<LogEntry>, written: seq<LogEntry>)

  function NewLogger(): Logger {
    Logger([], [])
  }

  // ---------------------------------------------------------------------------
  // Appending entries
  // ---------------------------------------------------------------------------

  /** `log`: one entry, without action or data, queued and written. */
  function Log(lg: Logger, stamp: string, level: string, tag: string, message: string, playerId: Option<string>): (r: Logger)
    ensures |r.queue| == |lg.queue| + 1 && r.queue[..|lg.queue|] == lg.queue
    ensures |r.written| == |lg.written| + 1 && r.written[..|lg.written|] == lg.written
    ensures var e := r.queue[|lg.queue|];
      && e == r.written[|lg.written|]
      && e.timestamp == stamp && e.level == level && e.tag == tag && e.message == message && e.playerId == playerId
      && e.action.None? && e.data.None?
  {
    var entry := LogEntry(stamp, level, tag, message, playerId, None, None);
    Logger(lg.queue + [entry], lg.written + [entry])
  }

  /** The message of the warning `checkForAnomalies` logs for an action, if it logs one. */
  function AnomalyMessage(playerId: string, action: string): (m: Option<string>)
    ensures m.Some? <==> action in {"MOVE", "SHOOT", "CONNECT"}
    ensures m.Some? ==> EndsWith(m.value, playerId)
  {
    if action == "MOVE" then Some(WithPlayer("Проверка движения игрока: ", playerId))
    else if action == "SHOOT" then Some(WithPlayer("Проверка стрельбы игрока: ", playerId))
    else if action == "CONNECT" then Some(WithPlayer("Проверка подключения игрока: ", playerId))
    else None
  }

  function WithPlayer(text: string, playerId: string): (m: string)
    ensures EndsWith(m, playerId)
  {
    assert (text + playerId)[|text|..] == playerId;
    text + playerId
  }

  /**
   `logPlayerAction`: the action entry, then (for `MOVE`, `SHOOT`,
   `CONNECT`) the anti-cheat warning, which `log` writes with its own
   timestamp `anomalyStamp`.
   */
  function LogPlayerAction(lg: Logger, stamp: string, anomalyStamp: string, playerId: string, action: string,
                           data: Option<string>, level: string): (r: Logger)
    ensures |r.queue| == |lg.queue| + (if AnomalyMessage(playerId, action).Some? then 2 else 1)
    ensures r.queue[..|lg.queue|] == lg.queue
    ensures r.queue[|lg.queue|] ==
      LogEntry(stamp, level, AntiCheatTag, "Player action: " + action, Some(playerId), Some(action), data)
    ensures AnomalyMessage(playerId, action).Some? ==>
      r.queue[|lg.queue| + 1] ==
        LogEntry(anomalyStamp, WarnLevel, AntiCheatTag, AnomalyMessage(playerId, action).value, Some(playerId), None, None)
    ensures r.written == lg.written + r.queue[|lg.queue|..]
  {
    var entry := LogEntry(stamp, level, AntiCheatTag, "Player action: " + action, Some(playerId), Some(action), data);
    var logged := Logger(lg.queue + [entry], lg.written + [entry]);
    match AnomalyMessage(playerId, action)
    case None => logged
    case Some(m) => Log(logged, anomalyStamp, WarnLevel, AntiCheatTag, m, Some(playerId))
  }

  /** `clearSentLogs`: the queue is emptied; the entries handed to `writeToFile` stay recorded. */
  function ClearSentLogs(lg: Logger): (r: Logger)
    ensures r.queue == [] && r.written == lg.written
  {
    lg.(queue := [])
  }

  /** `getLogsForServer`: the queue as a list. */
  function GetLogsForServer(lg: Logger): seq<LogEntry> {
    lg.queue
  }

  // ---------------------------------------------------------------------------
  // A run of logging calls
  // ---------------------------------------------------------------------------

  /** One call of the logger's two public logging functions, with its timestamps. */
  datatype LogCall =
    | Plain(stamp: string, level: string, tag: string, message: string, player: Option<string>)
    | PlayerAction(stamp: string, anomalyStamp: string, actor: string, action: string, data: Option<string>, level: string)

  /** The entries a call adds, as a list. */
  function EntriesOf(c: LogCall): seq<LogEntry> {
    match c
    case Plain(stamp, level, tag, message, playerId) => [LogEntry(stamp, level, tag, message, playerId, None, None)]
    case PlayerAction(stamp, anomalyStamp, playerId, action, data, level) =>
      var first := LogEntry(stamp, level, AntiCheatTag, "Player action: " + action, Some(playerId), Some(action), data);
      match AnomalyMessage(playerId, action)
      case None => [first]
      case Some(m) => [first, LogEntry(anomalyStamp, WarnLevel, AntiCheatTag, m, Some(playerId), None, None)]
  }

  function Flatten(cs: seq<LogCall>): seq<LogEntry> {
    if |cs| == 0 then [] else Flatten(cs[..|cs| - 1]) + EntriesOf(cs[|cs| - 1])
  }

  function Perform(lg: Logger, c: LogCall): Logger {
    match c
    case Plain(stamp, level, tag, message, playerId) => Log(lg, stamp, level, tag, message, playerId)
    case PlayerAction(stamp, anomalyStamp, playerId, action, data, level) =>
      LogPlayerAction(lg, stamp, anomalyStamp, playerId, action, data, level)
  }

  function PerformAll(lg: Logger, cs: seq<LogCall>): Logger {
    if |cs| == 0 then lg else Perform(PerformAll(lg, cs[..|cs| - 1]), cs[|cs| - 1])
  }

  /** Each call adds its entries at the end of the queue and of what is handed to `writeToFile`. */
  lemma PerformAddsEntries(lg: Logger, c: LogCall)
    ensures Perform(lg, c).queue == lg.queue + EntriesOf(c)
    ensures Perform(lg, c).written == lg.written + EntriesOf(c)
  {
    match c
    case Plain(_, _, _, _, _) =>
    case PlayerAction(stamp, anomalyStamp, playerId, action, data, level) =>
      var r := Perform(lg, c);
      var n := |lg.queue|;
      assert r.queue == r.queue[..n] + r.queue[n..];
      if AnomalyMessage(playerId, action).Some? {
        assert r.queue[n..] == [r.queue[n], r.queue[n + 1]];
      } else {
        assert r.queue[n..] == [r.queue[n]];
      }
  }

  /**
   The queue holds the entries of the calls in call order: after a clear it
   is exactly the concatenation of what each call adds.
   */
  lemma {:induction false} QueueIsConcatenation(lg: Logger, cs: seq<LogCall>)
    ensures PerformAll(lg, cs).queue == lg.queue + Flatten(cs)
    ensures PerformAll(lg, cs).written == lg.written + Flatten(cs)
  {
    if |cs| > 0 {
      var prefix, c := cs[..|cs| - 1], cs[|cs| - 1];
      QueueIsConcatenation(lg, prefix);
      var mid := PerformAll(lg, prefix);
      assert PerformAll(lg, cs) == Perform(mid, c);
      PerformAddsEntries(mid, c);
      assert Flatten(cs) == Flatten(prefix) + EntriesOf(c);
      assert lg.queue + Flatten(prefix) + EntriesOf(c) == lg.queue + Flatten(cs);
      assert lg.written + Flatten(prefix) + EntriesOf(c) == lg.written + Flatten(cs);
    }
  }

  /** What the server gets after a clear is what was logged since, in order; everything stays handed to `writeToFile`. */
  lemma ServerLogsSinceClear(lg: Logger, cs: seq<LogCall>)
    ensures GetLogsForServer(PerformAll(ClearSentLogs(lg), cs)) == Flatten(cs)
    ensures PerformAll(ClearSentLogs(lg), cs).written == lg.written + Flatten(cs)
  {
    QueueIsConcatenation(ClearSentLogs(lg), cs);
  }

  /** The `action` fields present in a list of entries, in order. */
  function Actions(entries: seq<LogEntry>): seq<string> {
    if |entries| == 0 then []
    else Actions(entries[..|entries| - 1]) + (match entries[|entries| - 1].action case Some(a) => [a] case None => [])
  }

  /** The actions of the `logPlayerAction` calls among `cs`, in call order. */
  function CallActions(cs: seq<LogCall>): seq<string> {
    if |cs| == 0 then []
    else CallActions(cs[..|cs| - 1]) + (if cs[|cs| - 1].PlayerAction? then [cs[|cs| - 1].action] else [])
  }

  /** How many of `cs` are `logPlayerAction` calls for an action `checkForAnomalies` checks. */
  function CheckedCalls(cs: seq<LogCall>): nat {
    if |cs| == 0 then 0
    else
      var c := cs[|cs| - 1];
      var checked := if c.PlayerAction? && c.action in {"MOVE", "SHOOT", "CONNECT"} then 1 else 0;
      CheckedCalls(cs[..|cs| - 1]) + checked
  }

  lemma {:induction false} ActionsAppend(a: seq<LogEntry>, b: seq<LogEntry>)
    ensures Actions(a + b) == Actions(a) + Actions(b)
    decreases |b|
  {
    if |b| > 0 {
      var last := b[|b| - 1];
      assert (a + b)[..|a + b| - 1] == a + b[..|b| - 1];
      ActionsAppend(a, b[..|b| - 1]);
      var tail := match last.action case Some(x) => [x] case None => [];
      AppendAssociates(Actions(a), Actions(b[..|b| - 1]), tail);
    } else {
      assert a + b == a;
    }
  }

  /** The actions one call records: its own action for `logPlayerAction`, none for `log`. */
  lemma ActionsOfCall(c: LogCall)
    ensures Actions(EntriesOf(c)) == if c.PlayerAction? then [c.action] else []
  {
    var e := EntriesOf(c);
    if |e| == 2 {
      assert e[..1] == [e[0]] && e[0].action == Some(c.action) && e[1].action.None?;
      assert Actions(e[..1]) == [c.action] by {
        assert e[..1][..0] == [];
      }
    }
  }

  lemma {:induction false} ActionsOfFlatten(cs: seq<LogCall>)
    ensures Actions(Flatten(cs)) == CallActions(cs)
  {
    if |cs| > 0 {
      var prefix, c := cs[..|cs| - 1], cs[|cs| - 1];
      ActionsOfFlatten(prefix);
      ActionsAppend(Flatten(prefix), EntriesOf(c));
      ActionsOfCall(c);
    }
  }

  /**
   Only `logPlayerAction` records an action, one per call, on its first
   entry: the actions in the queue are those of the calls, in call order.
   */
  lemma QueueActions(lg: Logger, cs: seq<LogCall>)
    ensures Actions(PerformAll(lg, cs).queue) == Actions(lg.queue) + CallActions(cs)
  {
    QueueIsConcatenation(lg, cs);
    ActionsAppend(lg.queue, Flatten(cs));
    ActionsOfFlatten(cs);
  }

  /**
   Every call queues one entry, and a `logPlayerAction` call for `MOVE`,
   `SHOOT` or `CONNECT` queues exactly one more, the anti-cheat warning.
   */
  lemma {:induction false} QueueGrowth(lg: Logger, cs: seq<LogCall>)
    ensures |PerformAll(lg, cs).queue| == |lg.queue| + |cs| + CheckedCalls(cs)
  {
    if |cs| > 0 {
      var prefix, c := cs[..|cs| - 1], cs[|cs| - 1];
      QueueGrowth(lg, prefix);
      var mid := PerformAll(lg, prefix);
      assert PerformAll(lg, cs) == Perform(mid, c);
    }
  }

  // ---------------------------------------------------------------------------
  // Retention of log files
  // ---------------------------------------------------------------------------

  /** A file in the log directory: its name and `lastModified()` time. */
  datatype LogFile = LogFile(name: string, lastModified: int)

  /** The file `writeToFile` appends to on a given day. */
  function LogFileName(day: string): string {
    LogFilePrefix + day + LogFileSuffix
  }

  /** The filter of `cleanupOldLogFiles`. */
  predicate IsLogFileName(name: string) {
    StartsWith(name, LogFilePrefix) && EndsWith(name, LogFileSuffix)
  }

  /** Every file the logger writes is one the retention rule considers. */
  lemma WrittenFilesAreCandidates(day: string)
    ensures IsLogFileName(LogFileName(day))
  {
    var name := LogFileName(day);
    StartsWithAppend(LogFilePrefix, day + LogFileSuffix);
    assert name == LogFilePrefix + (day + LogFileSuffix);
    assert name[|name| - |LogFileSuffix|..] == LogFileSuffix;
  }

  /** The directory listing restricted to log files, in listing order. */
  function Candidates(files: seq<LogFile>): (r: seq<LogFile>)
    ensures forall f | f in r :: f in files && IsLogFileName(f.name)
    ensures forall f | f in files && IsLogFileName(f.name) :: f in r
    ensures |r| <= |files|
  {
    if |files| == 0 then []
    else
      var rest := Candidates(files[1..]);
      if IsLogFileName(files[0].name) then [files[0]] + rest else rest
  }

  predicate NewestFirst(s: seq<LogFile>) {
    forall i, j | 0 <= i < j < |s| :: s[i].lastModified >= s[j].lastModified
  }

  /** Insert into a newest-first list, ahead of files that are not newer (keeps equal times in order). */
  function Insert(f: LogFile, s: seq<LogFile>): (r: seq<LogFile>)
    ensures |r| == |s| + 1
    ensures multiset(r) == multiset(s) + multiset{f}
    ensures forall g | g in r :: g == f || g in s
  {
    if |s| == 0 || f.lastModified >= s[0].lastModified then
      [f] + s
    else
      assert s == [s[0]] + s[1..];
      [s[0]] + Insert(f, s[1..])
  }

  lemma {:induction false} InsertNewestFirst(f: LogFile, s: seq<LogFile>)
    requires NewestFirst(s)
    ensures NewestFirst(Insert(f, s))
  {
    if |s| > 0 && f.lastModified < s[0].lastModified {
      var tail := s[1..];
      var rest := Insert(f, tail);
      InsertNewestFirst(f, tail);
      var r := Insert(f, s);
      assert r == [s[0]] + rest;
      forall i, j | 0 <= i < j < |r|
        ensures r[i].lastModified >= r[j].lastModified
      {
        var g := rest[j - 1];
        assert r[j] == g;
        if i == 0 {
          assert g in rest;
          if g != f {
            var k :| 0 <= k < |tail| && tail[k] == g;
            assert s[k + 1] == g;
          }
        } else {
          assert r[i] == rest[i - 1];
        }
      }
    }
  }

  /** `sortedByDescending { it.lastModified() }`, as an insertion sort. */
  function SortNewestFirst(s: seq<LogFile>): (r: seq<LogFile>)
    ensures NewestFirst(r)
    ensures multiset(r) == multiset(s)
  {
    if |s| == 0 then []
    else
      assert s == [s[0]] + s[1..];
      InsertNewestFirst(s[0], SortNewestFirst(s[1..]));
      Insert(s[0], SortNewestFirst(s[1..]))
  }

  /** The split `cleanupOldLogFiles` makes: the files kept and the files deleted. */
  datatype Retention = Retention(keep: seq<LogFile>, delete: seq<LogFile>)

  /**
   Keep the five most recently modified log files and delete the others;
   with five or fewer, delete nothing. Non-log files are never touched.
   */
  function CleanupOldLogFiles(files: seq<LogFile>): (r: Retention)
    ensures multiset(r.keep) + multiset(r.delete) == multiset(Candidates(files))
    ensures |Candidates(files)| <= MaxLogFiles ==> r.delete == []
    ensures |Candidates(files)| > MaxLogFiles ==> |r.keep| == MaxLogFiles
    ensures forall k, d | k in r.keep && d in r.delete :: k.lastModified >= d.lastModified
    ensures forall d | d in r.delete :: d in files && IsLogFileName(d.name)
  {
    var sorted := SortNewestFirst(Candidates(files));
    if |sorted| > MaxLogFiles then
      var keep := sorted[..MaxLogFiles];
      var delete := sorted[MaxLogFiles..];
      assert sorted == keep + delete;
      assert forall d | d in delete :: d in multiset(sorted);
      KeepNewerThanDelete(sorted, MaxLogFiles);
      Retention(keep, delete)
    else
      Retention(sorted, [])
  }

  /** In a newest-first list, everything before a cut is at least as new as everything after it. */
  lemma KeepNewerThanDelete(sorted: seq<LogFile>, cut: nat)
    requires NewestFirst(sorted) && cut <= |sorted|
    ensures forall k, d | k in sorted[..cut] && d in sorted[cut..] :: k.lastModified >= d.lastModified
  {
    forall k, d | k in sorted[..cut] && d in sorted[cut..]
      ensures k.lastModified >= d.lastModified
    {
      var i :| 0 <= i < cut && sorted[i] == k;
      var j :| 0 <= j < |sorted| - cut && sorted[cut..][j] == d;
      assert sorted[cut + j] == d;
    }
  }

  /** No file appears twice in a listing. */
  predicate Distinct(s: seq<LogFile>) {
    forall i, j | 0 <= i < j < |s| :: s[i] != s[j]
  }

  /**
   A log file strictly newer than every other log file survives the cleanup,
   so the file just written is never the one deleted.
   */
  lemma NewestFileSurvives(files: seq<LogFile>, f: LogFile)
    requires Distinct(files)
    requires f in files && IsLogFileName(f.name)
    requires forall g | g in Candidates(files) && g != f :: g.lastModified < f.lastModified
    ensures f !in CleanupOldLogFiles(files).delete
  {
    var c := Candidates(files);
    var r := CleanupOldLogFiles(files);
    if f in r.delete {
      assert |r.keep| == MaxLogFiles;
      KeptCopies(c, r, f);
      CandidatesDistinct(files);
      DistinctCount(c, f);
    }
  }

  /** If a file is deleted while nothing else is as new, every kept slot holds a copy of it. */
  lemma KeptCopies(c: seq<LogFile>, r: Retention, f: LogFile)
    requires multiset(r.keep) + multiset(r.delete) == multiset(c)
    requires |r.keep| >= 2
    requires forall k, d | k in r.keep && d in r.delete :: k.lastModified >= d.lastModified
    requires forall g | g in c && g != f :: g.lastModified < f.lastModified
    requires f in r.delete
    ensures multiset(c)[f] >= 2
  {
    var k0, k1 := r.keep[0], r.keep[1];
    assert k0 in multiset(c) && k1 in multiset(c);
    assert k0 == f && k1 == f;
    assert r.keep == [k0, k1] + r.keep[2..];
    assert multiset(r.keep)[f] >= 2;
  }

  lemma {:induction false} CandidatesDistinct(files: seq<LogFile>)
    requires Distinct(files)
    ensures Distinct(Candidates(files))
  {
    if |files| > 0 {
      CandidatesDistinct(files[1..]);
      assert files[0] !in files[1..];
    }
  }

  /** In a list without repeats every element is counted at most once. */
  lemma {:induction false} DistinctCount(s: seq<LogFile>, x: LogFile)
    requires Distinct(s)
    ensures multiset(s)[x] <= 1
  {
    if |s| > 0 {
      DistinctCount(s[1..], x);
      assert s == [s[0]] + s[1..];
      if s[0] == x {
        assert x !in s[1..];
      }
    }
  }

  // ---------------------------------------------------------------------------
  // Reading a log file back
  // ---------------------------------------------------------------------------

  /** The lines `writeToFile` appends for some entries, one encoded entry per line. */
  function Lines(encode: LogEntry -> string, entries: seq<LogEntry>): (lines: seq<string>)
    ensures |lines| == |entries|
  {
    if |entries| == 0 then [] else [encode(entries[0])] + Lines(encode, entries[1..])
  }

  /**
   `getLogsFromFile`: decode each trimmed line, dropping the lines that fail;
   a missing file (`None`) gives no entries.
   */
  function GetLogsFromFile(file: Option<seq<string>>, decode: string -> Option<LogEntry>): (r: seq<LogEntry>)
    ensures file.None? ==> r == []
    ensures file.Some? ==> |r| <= |file.value|
    ensures file.Some? ==> forall e | e in r :: exists line | line in file.value :: decode(Trim(line)) == Some(e)
  {
    match file
    case None => []
    case Some(lines) =>
      DecodedFromLines(lines, decode);
      Decoded(lines, decode)
  }

  function Decoded(lines: seq<string>, decode: string -> Option<LogEntry>): (r: seq<LogEntry>)
    ensures |r| <= |lines|
  {
    if |lines| == 0 then []
    else
      var rest := Decoded(lines[1..], decode);
      match decode(Trim(lines[0]))
      case Some(e) => [e] + rest
      case None => rest
  }

  /** Every entry read comes from a line that decodes to it. */
  lemma {:induction false} DecodedFromLines(lines: seq<string>, decode: string -> Option<LogEntry>)
    ensures forall e | e in Decoded(lines, decode) :: exists line | line in lines :: decode(Trim(line)) == Some(e)
  {
    if |lines| > 0 {
      DecodedFromLines(lines[1..], decode);
      assert forall line | line in lines[1..] :: line in lines;
    }
  }

  /** Decoding works line by line, so the file order is kept. */
  lemma {:induction false} DecodedAppend(a: seq<string>, b: seq<string>, decode: string -> Option<LogEntry>)
    ensures Decoded(a + b, decode) == Decoded(a, decode) + Decoded(b, decode)
  {
    if |a| == 0 {
      assert a + b == b;
    } else {
      assert (a + b)[1..] == a[1..] + b;
      DecodedAppend(a[1..], b, decode);
    }
  }

  /** An undecodable line in the middle is skipped; the lines around it are read as usual. */
  lemma UndecodableLineDropped(a: seq<string>, bad: string, b: seq<string>, decode: string -> Option<LogEntry>)
    requires decode(Trim(bad)) == None
    ensures GetLogsFromFile(Some(a + [bad] + b), decode) == GetLogsFromFile(Some(a), decode) + GetLogsFromFile(Some(b), decode)
  {
    DecodedAppend(a + [bad], b, decode);
    DecodedAppend(a, [bad], decode);
  }

  /**
   Write-then-read: when the decoder inverts the encoder on the trimmed line
   of every entry written, the file reads back as exactly those entries.
   */
  lemma ReadBackWritten(encode: LogEntry -> string, decode: string -> Option<LogEntry>, entries: seq<LogEntry>)
    requires forall i | 0 <= i < |entries| :: decode(Trim(encode(entries[i]))) == Some(entries[i])
    ensures GetLogsFromFile(Some(Lines(encode, entries)), decode) == entries
  {
    DecodedLines(encode, decode, entries);
  }

  lemma {:induction false} DecodedLines(encode: LogEntry -> string, decode: string -> Option<LogEntry>, entries: seq<LogEntry>)
    requires forall i | 0 <= i < |entries| :: decode(Trim(encode(entries[i]))) == Some(entries[i])
    ensures Decoded(Lines(encode, entries), decode) == entries
  {
    if |entries| > 0 {
      var rest := entries[1..];
      assert forall i | 0 <= i < |rest| :: rest[i] == entries[i + 1];
      DecodedLines(encode, decode, rest);
      DecodedCons(encode(entries[0]), Lines(encode, rest), decode, entries[0]);
      assert entries == [entries[0]] + rest;
    }
  }

  lemma DecodedCons(line: string, rest: seq<string>, decode: string -> Option<LogEntry>, e: LogEntry)
    requires decode(Trim(line)) == Some(e)
    ensures Decoded([line] + rest, decode) == [e] + Decoded(rest, decode)
  {
    assert ([line] + rest)[1..] == rest;
  }
}
