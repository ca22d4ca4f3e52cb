/** One file for every so many messages: the rotation policy and the policy that opens the file on each message. */
module LogRotation {
  import opened Chunking
  import opened LogFileNames
  import opened Wrappers

  /** A call of log, with the time the clock shows during it. */
  datatype Call = Call(message: string, time: string)

  /** The path kept by the file policy, the writes counted by the rotation policy, and every file by name. */
  datatype LogState = LogState(path: string, current: nat, files: map<string, seq<string>>)

  function Content(files: map<string, seq<string>>, name: string): seq<string> {
    if name in files then files[name] else []
  }

  function Appended(files: map<string, seq<string>>, name: string, lines: seq<string>): map<string, seq<string>> {
    files[name := Content(files, name) + lines]
  }

  predicate Rotates(s: LogState, max: nat) { s.current >= max || s.current == 0 }

  function Logged(s: LogState, max: nat, call: Call): LogState {
    var name := if Rotates(s, max) then Stamped(s.path, call.time) else s.path;
    var current := if Rotates(s, max) then 1 else s.current + 1;
    LogState(name, current, Appended(s.files, name, [call.message]))
  }

  function Run(s: LogState, max: nat, calls: seq<Call>): LogState
    decreases |calls|
  {
    if calls == [] then s else Logged(Run(s, max, calls[..|calls| - 1]), max, calls[|calls| - 1])
  }

  class FileSystem {
    var files: map<string, seq<string>>

    constructor ()
      ensures files == map[]
    {
      files := map[];
    }
  }

  /** A stream that appends lines to at most one open file. */
  class OutputFileStream {
    const disk: FileSystem
    var target: Option<string>

    constructor (disk: FileSystem)
      ensures this.disk == disk && target == None
    {
      this.disk := disk;
      target := None;
    }

    method Open(name: string)
      requires target == None
      modifies this, disk
      ensures target == Some(name)
      ensures disk.files == Appended(old(disk.files), name, [])
    {
      target := Some(name);
      disk.files := disk.files[name := Content(disk.files, name) + []];
    }

    method Close()
      modifies this
      ensures target == None
    {
      target := None;
    }

    method WriteLine(line: string)
      modifies disk
      ensures disk.files == match target
                            case Some(name) => Appended(old(disk.files), name, [line])
                            case None => old(disk.files)
    {
      match target
      case Some(name) => disk.files := disk.files[name := Content(disk.files, name) + [line]];
      case None =>
    }
  }

  class BoundedFileRotation {
    const fileMaxWrites: uint32
    var fileCurrentWrites: uint32

    constructor (fileMaxWrites: uint32)
      ensures this.fileMaxWrites == fileMaxWrites && fileCurrentWrites == 0
    {
      this.fileMaxWrites := fileMaxWrites;
      fileCurrentWrites := 0;
    }

    /** Leaves a closed stream, and any stream on rotation, open on the file that the next message belongs to;
        a stream that is open on some file stays so without rotation. The counter never wraps. */
    method RotateLogFile(file: OutputFileStream, fileName: string, now: string) returns (newFileName: string)
      modifies this, file, file.disk
      ensures var s := LogState(fileName, old(fileCurrentWrites) as nat, old(file.disk.files));
              var logged := Logged(s, fileMaxWrites as nat, Call("", now));
              && newFileName == logged.path && fileCurrentWrites as nat == logged.current
              && file.disk.files == if old(file.target) != None && !Rotates(s, fileMaxWrites as nat) then s.files
                                    else Appended(s.files, newFileName, [])
      ensures file.target ==
              if old(file.target) != None && !Rotates(LogState(fileName, old(fileCurrentWrites) as nat, map[]),
                                                      fileMaxWrites as nat)
              then old(file.target) else Some(newFileName)
    {
      newFileName := fileName;
      if fileCurrentWrites >= fileMaxWrites || fileCurrentWrites == 0 {
        fileCurrentWrites := 0;
        if file.target != None {
          file.Close();
        }
        newFileName := CreateLogFileName(newFileName, now);
        file.Open(newFileName);
      }
      fileCurrentWrites := fileCurrentWrites + 1;
      if file.target == None {
        file.Open(newFileName);
      }
    }
  }

  /** Opening a file to append to it changes nothing that writing would not. */
  lemma AppendedToOpened(files: map<string, seq<string>>, name: string, lines: seq<string>)
    ensures Appended(Appended(files, name, []), name, lines) == Appended(files, name, lines)
  {
    assert Content(files, name) + [] == Content(files, name);
  }

  class FileOpenOnDemandPolicy {
    const logFileRotationPolicy: BoundedFileRotation
    const disk: FileSystem
    var logFilePath: string

    constructor (logFileRotationPolicy: BoundedFileRotation, disk: FileSystem)
      ensures this.logFileRotationPolicy == logFileRotationPolicy && this.disk == disk && logFilePath == ""
    {
      this.logFileRotationPolicy := logFileRotationPolicy;
      this.disk := disk;
      logFilePath := "";
    }

    ghost function State(): LogState
      reads this, logFileRotationPolicy, disk
    {
      LogState(logFilePath, logFileRotationPolicy.fileCurrentWrites as nat, disk.files)
    }

    method GetLogFile(logFilePath: string) returns (path: string)
      modifies this
      ensures path == logFilePath && State() == old(State()).(path := logFilePath)
    {
      this.logFilePath := logFilePath;
      path := logFilePath;
    }

    method Log(completeLoggingMessage: string, now: string)
      modifies this, logFileRotationPolicy, disk
      ensures State() == Logged(old(State()), logFileRotationPolicy.fileMaxWrites as nat,
                                Call(completeLoggingMessage, now))
    {
      var fileStream := new OutputFileStream(disk);
      ghost var before := disk.files;
      logFilePath := logFileRotationPolicy.RotateLogFile(fileStream, logFilePath, now);
      AppendedToOpened(before, logFilePath, [completeLoggingMessage]);
      fileStream.WriteLine(completeLoggingMessage);
      fileStream.Close();
    }
  }

  /** How many messages a file takes. */
  function Bound(max: nat): nat { if max == 0 then 1 else max }

  function Messages(calls: seq<Call>): (messages: seq<string>)
    ensures |messages| == |calls|
  {
    seq(|calls|, i requires 0 <= i < |calls| => calls[i].message)
  }

  /** The name of each chunk's file, when every file's name is made from the one before it. */
  function Names(path: string, chunks: seq<seq<Call>>): (names: seq<string>)
    requires Started(chunks)
    ensures |names| == |chunks|
    decreases |chunks|
  {
    if chunks == [] then []
    else var name := Stamped(path, chunks[0][0].time); [name] + Names(name, chunks[1..])
  }

  /** What the chunks with this name hold, in order. */
  function Held(names: seq<string>, chunks: seq<seq<Call>>, name: string): seq<string>
    requires |names| == |chunks|
    decreases |chunks|
  {
    if chunks == [] then []
    else (if names[0] == name then Messages(chunks[0]) else []) + Held(names[1..], chunks[1..], name)
  }

  lemma {:induction false} RunConcat(s: LogState, max: nat, a: seq<Call>, b: seq<Call>)
    ensures Run(s, max, a + b) == Run(Run(s, max, a), max, b)
    decreases |b|
  {
    if b == [] {
      assert a + b == a;
    } else {
      var front := b[..|b| - 1];
      RunConcat(s, max, a, front);
      assert (a + b)[..|a + b| - 1] == a + front;
    }
  }

  /** A chunk that starts with a rotation goes to one freshly stamped file. */
  lemma {:induction false} ChunkGoesToOneFile(s: LogState, max: nat, chunk: seq<Call>)
    requires Rotates(s, max) && 0 < |chunk| <= Bound(max)
    ensures var name := Stamped(s.path, chunk[0].time);
            Run(s, max, chunk) == LogState(name, |chunk|, Appended(s.files, name, Messages(chunk)))
    decreases |chunk|
  {
    var name := Stamped(s.path, chunk[0].time);
    var front, last := chunk[..|chunk| - 1], chunk[|chunk| - 1];
    if front == [] {
      assert Run(s, max, front) == s;
      assert Messages(chunk) == [last.message];
    } else {
      ChunkGoesToOneFile(s, max, front);
      var mid := Run(s, max, front);
      assert !Rotates(mid, max);
      assert Messages(front) + [last.message] == Messages(chunk);
      assert (Content(s.files, name) + Messages(front)) + [last.message] == Content(s.files, name) + Messages(chunk);
    }
  }

  lemma FirstHeld(before: seq<string>, names: seq<string>, chunks: seq<seq<Call>>, name: string)
    requires 0 < |names| == |chunks|
    ensures (before + (if names[0] == name then Messages(chunks[0]) else [])) + Held(names[1..], chunks[1..], name)
         == before + Held(names, chunks, name)
  {
  }

  lemma FirstName(path: string, chunks: seq<seq<Call>>)
    requires 0 < |chunks| && Started(chunks)
    ensures var first := Stamped(path, chunks[0][0].time);
            Names(path, chunks)[0] == first && Names(path, chunks)[1..] == Names(first, chunks[1..])
  {
  }

  lemma ContentOfAppended(files: map<string, seq<string>>, to: string, lines: seq<string>, name: string)
    ensures Content(Appended(files, to, lines), name) == Content(files, name) + (if to == name then lines else [])
  {
    assert Content(files, name) + [] == Content(files, name);
  }

  /** Every file ends up with what it held before and then, in order, every chunk that was given its name. */
  lemma {:induction false} FilesHoldTheirChunks(s: LogState, max: nat, calls: seq<Call>, name: string)
    requires calls == [] || Rotates(s, max)
    ensures var chunks := Chunks(calls, Bound(max));
            var names := Names(s.path, chunks);
            && Content(Run(s, max, calls).files, name) == Content(s.files, name) + Held(names, chunks, name)
            && (name in Run(s, max, calls).files <==> name in s.files || name in names)
    decreases |calls|
  {
    var bound := Bound(max);
    var chunks := Chunks(calls, bound);
    var names := Names(s.path, chunks);
    if calls == [] {
      assert Content(s.files, name) + [] == Content(s.files, name);
    } else {
      FirstChunk(calls, bound);
      var chunk, rest := chunks[0], calls[|chunks[0]|..];
      ChunkGoesToOneFile(s, max, chunk);
      var mid := Run(s, max, chunk);
      RunConcat(s, max, chunk, rest);
      FirstName(s.path, chunks);
      ContentOfAppended(s.files, names[0], Messages(chunk), name);
      FirstHeld(Content(s.files, name), names, chunks, name);
      assert name in names <==> name == names[0] || name in names[1..];
      FilesHoldTheirChunks(mid, max, rest, name);
    }
  }

  // ---- The names of the files ----

  /** After the first stamping every name is that name stamped with the time its own chunk began. */
  lemma {:induction false} LaterNames(path: string, time: string, chunks: seq<seq<Call>>, j: nat)
    requires Started(chunks) && j < |chunks|
    ensures Names(Stamped(path, time), chunks)[j] == Stamped(Stamped(path, time), chunks[j][0].time)
    decreases j
  {
    if j == 0 {
    } else {
      var name := Stamped(path, time);
      FirstName(name, chunks);
      LaterNames(name, chunks[0][0].time, chunks[1..], j - 1);
      StampedNamesAreStable(path, time, chunks[0][0].time, chunks[j][0].time);
    }
  }

  /** What tells the j-th name from the others: the time its chunk began, after the end of the marker that a
      drifting path leaves in the first name. */
  function Key(path: string, chunks: seq<seq<Call>>, j: nat): string
    requires j < |chunks| && 0 < |chunks[j]|
  {
    (if j == 0 && Drifts(path) then LOG_FILE_POSTFIX[1..] else "") + chunks[j][0].time
  }

  lemma NameIsKeyed(path: string, chunks: seq<seq<Call>>, j: nat)
    requires Started(chunks) && j < |chunks|
    ensures Names(path, chunks)[j]
         == Base(Names(path, chunks)[0]) + LOG_FILE_POSTFIX + Key(path, chunks, j) + LOG_FILE_EXTENSION
  {
    var time := chunks[0][0].time;
    FirstName(path, chunks);
    if j > 0 {
      LaterNames(path, time, chunks[1..], j - 1);
      assert Key(path, chunks, j) == chunks[j][0].time;
    } else {
      StampedIsKeyed(path, time);
    }
  }

  lemma SameMiddle(front: string, a: string, b: string, end: string)
    ensures front + a + end == front + b + end <==> a == b
  {
    var x, y := front + a + end, front + b + end;
    if x == y {
      assert |x| == |front| + |a| + |end| && |y| == |front| + |b| + |end|;
      assert a == x[|front|..|front| + |a|] && b == y[|front|..|front| + |b|];
    }
  }

  lemma NamesDifferAsKeysDo(path: string, chunks: seq<seq<Call>>, i: nat, j: nat)
    requires Started(chunks) && i < |chunks| && j < |chunks|
    ensures Names(path, chunks)[i] == Names(path, chunks)[j] <==> Key(path, chunks, i) == Key(path, chunks, j)
  {
    NameIsKeyed(path, chunks, i);
    NameIsKeyed(path, chunks, j);
    var front := Base(Names(path, chunks)[0]) + LOG_FILE_POSTFIX;
    SameMiddle(front, Key(path, chunks, i), Key(path, chunks, j), LOG_FILE_EXTENSION);
  }

  // ---- What the files hold ----

  lemma {:induction false} HeldByNone(names: seq<string>, chunks: seq<seq<Call>>, name: string)
    requires |names| == |chunks| && name !in names
    ensures Held(names, chunks, name) == []
    decreases |chunks|
  {
    if chunks == [] {
    } else {
      assert names[0] != name;
      HeldByNone(names[1..], chunks[1..], name);
    }
  }

  lemma {:induction false} HeldByOne(names: seq<string>, chunks: seq<seq<Call>>, j: nat)
    requires j < |names| == |chunks| && forall i :: 0 <= i < |names| && i != j ==> names[i] != names[j]
    ensures Held(names, chunks, names[j]) == Messages(chunks[j])
    decreases |chunks|
  {
    if j == 0 {
      HeldByNone(names[1..], chunks[1..], names[0]);
      assert Messages(chunks[0]) + [] == Messages(chunks[0]);
    } else {
      HeldByOne(names[1..], chunks[1..], j - 1);
    }
  }

  lemma {:induction false} HeldAtLeast(names: seq<string>, chunks: seq<seq<Call>>, name: string, j: nat)
    requires j < |names| == |chunks| && names[j] == name
    ensures |Held(names, chunks, name)| >= |chunks[j]|
    decreases |chunks|
  {
    if j == 0 {
    } else {
      HeldAtLeast(names[1..], chunks[1..], name, j - 1);
    }
  }

  lemma {:induction false} HeldByTwo(names: seq<string>, chunks: seq<seq<Call>>, i: nat, j: nat)
    requires i < j < |names| == |chunks| && names[i] == names[j]
    ensures |Held(names, chunks, names[i])| >= |chunks[i]| + |chunks[j]|
    decreases |chunks|
  {
    if i == 0 {
      HeldAtLeast(names[1..], chunks[1..], names[0], j - 1);
    } else {
      HeldByTwo(names[1..], chunks[1..], i - 1, j - 1);
    }
  }

  /** Every chunk has gone to a file that got nothing else. */
  ghost predicate EachFileGotItsChunk(before: map<string, seq<string>>, after: map<string, seq<string>>,
                                      names: seq<string>, chunks: seq<seq<Call>>)
    requires |names| == |chunks|
  {
    forall j :: 0 <= j < |chunks| ==> Content(after, names[j]) == Content(before, names[j]) + Messages(chunks[j])
  }

  ghost predicate KeysDiffer(path: string, chunks: seq<seq<Call>>)
    requires Started(chunks)
  {
    forall i, j :: 0 <= i < j < |chunks| ==> Key(path, chunks, i) != Key(path, chunks, j)
  }

  ghost predicate Differ(names: seq<string>) { forall i, j :: 0 <= i < j < |names| ==> names[i] != names[j] }

  lemma DifferAlike(a: seq<string>, b: seq<string>)
    requires |a| == |b| && forall i, j :: 0 <= i < j < |a| ==> (a[i] == a[j] <==> b[i] == b[j])
    ensures Differ(a) <==> Differ(b)
  {
  }

  lemma KeysDifferAsNamesDo(path: string, chunks: seq<seq<Call>>)
    requires Started(chunks)
    ensures KeysDiffer(path, chunks) <==> Differ(Names(path, chunks))
  {
    var names := Names(path, chunks);
    var keys := seq(|chunks|, j requires 0 <= j < |chunks| => Key(path, chunks, j));
    assert forall j :: 0 <= j < |chunks| ==> keys[j] == Key(path, chunks, j);
    forall i, j | 0 <= i < j < |chunks| ensures names[i] == names[j] <==> keys[i] == keys[j] {
      NamesDifferAsKeysDo(path, chunks, i, j);
    }
    DifferAlike(names, keys);
  }

  ghost predicate HoldTheirChunks(before: map<string, seq<string>>, after: map<string, seq<string>>,
                                  names: seq<string>, chunks: seq<seq<Call>>)
    requires |names| == |chunks|
  {
    forall name :: Content(after, name) == Content(before, name) + Held(names, chunks, name)
  }

  lemma EachGotItsChunkIfNamesDiffer(before: map<string, seq<string>>, after: map<string, seq<string>>,
                                     names: seq<string>, chunks: seq<seq<Call>>)
    requires |names| == |chunks| && HoldTheirChunks(before, after, names, chunks) && Differ(names)
    ensures EachFileGotItsChunk(before, after, names, chunks)
  {
    forall j | 0 <= j < |chunks| ensures Content(after, names[j]) == Content(before, names[j]) + Messages(chunks[j]) {
      HeldByOne(names, chunks, j);
    }
  }

  lemma SomeFileGotMoreIfNamesAgree(before: map<string, seq<string>>, after: map<string, seq<string>>,
                                    names: seq<string>, chunks: seq<seq<Call>>)
    requires |names| == |chunks| && Started(chunks) && HoldTheirChunks(before, after, names, chunks) && !Differ(names)
    ensures !EachFileGotItsChunk(before, after, names, chunks)
  {
    var i, j :| 0 <= i < j < |names| && names[i] == names[j];
    HeldByTwo(names, chunks, i, j);
    assert |Content(after, names[i])| > |Content(before, names[i]) + Messages(chunks[i])|;
  }

  /** Bounded rotation with a file opened on each message. From an unused rotation policy and any files, each
      chunk of the calls is appended to a file that gets nothing else if and only if the times at which files
      are started differ (for a drifting path the first of them read as "logging_on_" and the time). */
  lemma RotationPartitionsTheLog(path: string, files: map<string, seq<string>>, max: nat, calls: seq<Call>)
    ensures var chunks := Chunks(calls, Bound(max));
            var end := Run(LogState(path, 0, files), max, calls).files;
            EachFileGotItsChunk(files, end, Names(path, chunks), chunks) <==> KeysDiffer(path, chunks)
  {
    var s := LogState(path, 0, files);
    var chunks := Chunks(calls, Bound(max));
    var names := Names(path, chunks);
    var end := Run(s, max, calls).files;
    forall name ensures Content(end, name) == Content(files, name) + Held(names, chunks, name) {
      FilesHoldTheirChunks(s, max, calls, name);
    }
    KeysDifferAsNamesDo(path, chunks);
    if Differ(names) {
      EachGotItsChunkIfNamesDiffer(files, end, names, chunks);
    } else {
      SomeFileGotMoreIfNamesAgree(files, end, names, chunks);
    }
  }

  /** The files named by the calls are there afterwards, and no other file is made or written. */
  lemma OtherFilesAreLeftAlone(path: string, files: map<string, seq<string>>, max: nat, calls: seq<Call>, name: string)
    ensures var names := Names(path, Chunks(calls, Bound(max)));
            var end := Run(LogState(path, 0, files), max, calls).files;
            && (name in end <==> name in files || name in names)
            && (name in files && name !in names ==> end[name] == files[name])
  {
    var s := LogState(path, 0, files);
    var chunks := Chunks(calls, Bound(max));
    var names := Names(path, chunks);
    FilesHoldTheirChunks(s, max, calls, name);
    if name in files && name !in names {
      HeldByNone(names, chunks, name);
      assert Content(files, name) + [] == files[name];
    }
  }

  lemma {:induction false} DistinctTimesStartChunks(calls: seq<Call>, bound: nat, i: nat, j: nat)
    requires 0 < bound && i < j < |Chunks(calls, bound)|
    requires forall k, l :: 0 <= k < l < |calls| ==> calls[k].time != calls[l].time
    ensures Chunks(calls, bound)[i][0].time != Chunks(calls, bound)[j][0].time
    decreases i
  {
    FirstChunk(calls, bound);
    var chunks := Chunks(calls, bound);
    var n := |chunks[0]|;
    if i == 0 {
      ChunksBeginWithItems(calls[n..], bound, j - 1);
      var k :| 0 <= k < |calls[n..]| && calls[n..][k] == chunks[j][0];
      assert chunks[0][0] == (chunks[0] + calls[n..])[0] == calls[0];
      assert calls[0].time != calls[n + k].time;
    } else {
      DistinctTimesStartChunks(calls[n..], bound, i - 1, j - 1);
    }
  }

  lemma DistinctTimesGiveDistinctKeys(path: string, calls: seq<Call>, bound: nat)
    requires forall k, l :: 0 <= k < l < |calls| ==> calls[k].time != calls[l].time
    requires !Drifts(path) && 0 < bound
    ensures KeysDiffer(path, Chunks(calls, bound))
  {
    var chunks := Chunks(calls, bound);
    forall i, j | 0 <= i < j < |chunks| ensures Key(path, chunks, i) != Key(path, chunks, j) {
      DistinctTimesStartChunks(calls, bound, i, j);
      assert Key(path, chunks, i) == chunks[i][0].time && Key(path, chunks, j) == chunks[j][0].time;
    }
  }

  /** In particular it does when no two calls see the same time and the path does not drift. */
  lemma DistinctTimesPartitionTheLog(path: string, files: map<string, seq<string>>, max: nat, calls: seq<Call>)
    requires forall k, l :: 0 <= k < l < |calls| ==> calls[k].time != calls[l].time
    requires !Drifts(path)
    ensures var chunks := Chunks(calls, Bound(max));
            EachFileGotItsChunk(files, Run(LogState(path, 0, files), max, calls).files, Names(path, chunks), chunks)
  {
    DistinctTimesGiveDistinctKeys(path, calls, Bound(max));
    RotationPartitionsTheLog(path, files, max, calls);
  }
}
