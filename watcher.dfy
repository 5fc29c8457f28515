/**
 * The file watcher of cybernetics_core/sentry.py. Each tick lists the
 * supported files of the watch folder, sends every one of them to the files
 * queue as a message carrying its Base64 content, moves each sent file into
 * the processed folder, and remembers the listed names when the tick
 * completed without an exception.
 */
module Watcher {
  import opened Wrappers
  import opened Text
  import opened JsonText
  import opened Envelope
  import opened QueueStore
  import Base64
  import Extractor

  /** The watcher's settings: the folders and the set `supported_extensions` evaluates to. */
  datatype WatchSettings = WatchSettings(watchFolder: string, processedFolder: string, extensions: set<string>)

  /** `is_supported(filename)`: the lower-cased name ends with one of the extensions. */
  predicate IsSupported(filename: string, extensions: set<string>) {
    exists ext :: ext in extensions && EndsWith(Lower(filename), ext)
  }

  /** Support does not depend on the case of the file name. */
  lemma IsSupportedIgnoresCase(filename: string, extensions: set<string>)
    ensures IsSupported(Lower(filename), extensions) <==> IsSupported(filename, extensions)
  {
    LowerIdempotent(filename);
  }

  /** A name as `os.listdir` gives it: not empty and without `/`. */
  predicate EntryName(f: string) {
    |f| > 0 && '/' !in f
  }

  /** The supported names among the entries of the watch folder. */
  function CurrentFiles(entries: map<string, seq<Base64.byte>>, extensions: set<string>): set<string> {
    set f | f in entries && IsSupported(f, extensions)
  }

  /** The files one tick sends: `new_files | modified_files`. */
  function ToSend(current: set<string>, seen: set<string>): set<string> {
    (current - seen) + (current * seen)
  }

  /** New and modified files never overlap, and together they are every listed file. */
  lemma {:induction false} ToSendIsCurrent(current: set<string>, seen: set<string>)
    ensures (current - seen) * (current * seen) == {}
    ensures ToSend(current, seen) == current
  {
    forall f | f in current
      ensures f in ToSend(current, seen)
    {
      if f in seen {
        assert f in current * seen;
      } else {
        assert f in current - seen;
      }
    }
  }

  /** `s.lstrip("/")`. */
  function LStripSlash(s: string): (r: string)
    ensures |r| <= |s| && r == s[|s| - |r|..]
    ensures |r| == 0 || r[0] != '/'
    ensures forall i :: 0 <= i < |s| - |r| ==> s[i] == '/'
    decreases |s|
  {
    if |s| > 0 && s[0] == '/' then LStripSlash(s[1..]) else s
  }

  /** What `os.path.join(a, b)` puts in front of a relative `b`. */
  function JoinPrefix(a: string): string {
    if |a| == 0 || a[|a| - 1] == '/' then a else a + "/"
  }

  /** `os.path.join(a, b)`: an absolute `b` discards `a`. */
  function PathJoin(a: string, b: string): string {
    if |b| > 0 && b[0] == '/' then b else JoinPrefix(a) + b
  }

  /** A relative second part is appended to the first. */
  lemma PathJoinRelative(a: string, b: string)
    requires |b| == 0 || b[0] != '/'
    ensures PathJoin(a, b) == JoinPrefix(a) + b && StartsWith(PathJoin(a, b), a) && EndsWith(PathJoin(a, b), b)
  {
    var p := JoinPrefix(a);
    assert (p + b)[..|a|] == a;
    assert (p + b)[|p + b| - |b|..] == b;
  }

  /** Different names joined to the same folder give different paths. */
  lemma PathJoinInjective(a: string, f: string, g: string)
    requires EntryName(f) && EntryName(g)
    ensures PathJoin(a, f) == PathJoin(a, g) ==> f == g
  {
    PathJoinRelative(a, f);
    PathJoinRelative(a, g);
    var p := JoinPrefix(a);
    if PathJoin(a, f) == PathJoin(a, g) {
      assert f == (p + f)[|p|..];
      assert g == (p + g)[|p|..];
    }
  }

  lemma {:induction false} RFindPastSuffix(p: string, f: string, c: char)
    requires c !in f
    ensures RFind(p + f, c) == RFind(p, c)
    decreases |f|
  {
    if |f| > 0 {
      var s := p + f;
      assert s[..|s| - 1] == p + f[..|f| - 1];
      assert s[|s| - 1] == f[|f| - 1];
      RFindPastSuffix(p, f[..|f| - 1], c);
    } else {
      assert p + f == p;
    }
  }

  /** `os.path.basename` of a name joined to a folder is the name. */
  lemma BaseNameOfJoin(a: string, f: string)
    requires EntryName(f)
    ensures BaseName(PathJoin(a, f)) == f
  {
    PathJoinRelative(a, f);
    var p := JoinPrefix(a);
    RFindPastSuffix(p, f, '/');
    if |p| == 0 {
      assert p + f == f;
    } else {
      assert p[|p| - 1] == '/';
      assert (p + f)[|p|..] == f;
    }
  }

  /** `processed_dir`: the processed folder, made relative, inside the watch folder. */
  function ProcessedDir(ws: WatchSettings): string {
    PathJoin(ws.watchFolder, LStripSlash(ws.processedFolder))
  }

  /** Where `shutil.move` puts a sent file. */
  function ProcessedPath(ws: WatchSettings, f: string): string {
    PathJoin(ProcessedDir(ws), f)
  }

  /**
   * A processed file lands inside the watch folder, under its own name, and
   * two files never land on the same path.
   */
  lemma ProcessedPathInside(ws: WatchSettings, f: string, g: string)
    requires EntryName(f) && EntryName(g)
    ensures StartsWith(ProcessedPath(ws, f), ws.watchFolder)
    ensures StartsWith(ProcessedPath(ws, f), ProcessedDir(ws))
    ensures BaseName(ProcessedPath(ws, f)) == f
    ensures ProcessedPath(ws, f) == ProcessedPath(ws, g) ==> f == g
  {
    PathJoinRelative(ws.watchFolder, LStripSlash(ws.processedFolder));
    PathJoinRelative(ProcessedDir(ws), f);
    StartsWithTrans(ProcessedPath(ws, f), ProcessedDir(ws), ws.watchFolder);
    BaseNameOfJoin(ProcessedDir(ws), f);
    PathJoinInjective(ProcessedDir(ws), f, g);
  }

  /**
   * A watcher message reaches the extractor whole: it passes validation,
   * its content decodes to exactly the file's bytes, and the extractor
   * reads them under the file's name and forwards under the message's id.
   */
  lemma WatcherToExtractor(cfg: Settings, id: string, bytes: seq<Base64.byte>, f: string, mime: string, rd: Extractor.Readers)
    requires DistinctFieldNames(cfg)
    ensures var read := Extractor.ReadDocuments(JStr(f), bytes, rd);
      Extractor.HandleFileMessage(cfg, Serialized(FileMessage(cfg, id, Base64.Encode(bytes), f, mime)), rd) ==
        if read.docs.None? then Extractor.Drop(read.error)
        else Extractor.Forward(read.error, JStr(id), Extractor.ExtractionJson(read.docs.value))
  {
    var encoded := Base64.Encode(bytes);
    var m := FileMessage(cfg, id, encoded, f, mime);
    FileMessageValid(cfg, id, encoded, f, mime);
    Base64.DecodeEncode(bytes);
    assert |m| > 0 by {
      assert "id" in m;
    }
    assert DecodeMessage(Serialized(m)) == Some(m);
    assert GetValue(m, cfg.contentField) == JStr(encoded);
    assert GetValue(m, "filename") == JStr(f);
    assert GetValue(m, "id") == JStr(id);
  }

  /** What happens to one file of a tick: reading it raises, or moving it raises after the send. */
  datatype FileFault = ReadFails | MoveFails

  /** The message `send_files` builds for a file: a fresh id, its Base64 content, its name and its mime type. */
  function FileRecord(cfg: Settings, id: string, bytes: seq<Base64.byte>, f: string, mime: seq<Base64.byte> -> string): Raw {
    Serialized(FileMessage(cfg, id, Base64.Encode(bytes), f, mime(bytes)))
  }

  /** The messages a tick sends, in sending order: the `j`-th file read gets the `j`-th fresh id. */
  function FileMessages(cfg: Settings, names: seq<string>, firstId: nat, disk: map<string, seq<Base64.byte>>,
                        mime: seq<Base64.byte> -> string): (r: seq<Raw>)
    ensures |r| == |names|
    decreases |names|
  {
    if |names| == 0 then []
    else
      var f := names[|names| - 1];
      FileMessages(cfg, names[..|names| - 1], firstId, disk, mime) +
        [FileRecord(cfg, IdOf(firstId + |names| - 1), if f in disk then disk[f] else [], f, mime)]
  }

  /** The `j`-th message is that of the `j`-th name, under the `j`-th id. */
  lemma {:induction false} FileMessagesAt(cfg: Settings, names: seq<string>, firstId: nat, disk: map<string, seq<Base64.byte>>,
                                          mime: seq<Base64.byte> -> string, j: nat)
    requires j < |names|
    ensures FileMessages(cfg, names, firstId, disk, mime)[j] ==
      FileRecord(cfg, IdOf(firstId + j), if names[j] in disk then disk[names[j]] else [], names[j], mime)
    decreases |names|
  {
    if j < |names| - 1 {
      FileMessagesAt(cfg, names[..|names| - 1], firstId, disk, mime, j);
    }
  }

  /** Each of the messages carries the content of its file, and a name of its own. */
  lemma FileMessagesContent(cfg: Settings, names: seq<string>, firstId: nat, disk: map<string, seq<Base64.byte>>,
                            mime: seq<Base64.byte> -> string)
    requires DistinctFieldNames(cfg)
    requires forall j :: 0 <= j < |names| ==> names[j] in disk
    ensures var r := FileMessages(cfg, names, firstId, disk, mime);
      forall j :: 0 <= j < |r| ==>
        r[j].Serialized? && "filename" in r[j].fields && cfg.contentField in r[j].fields && "id" in r[j].fields &&
        r[j].fields["filename"] == JStr(names[j]) &&
        r[j].fields[cfg.contentField].JStr? &&
        Base64.Decode(r[j].fields[cfg.contentField].s) == Some(disk[names[j]]) &&
        r[j].fields["id"] == JStr(IdOf(firstId + j))
  {
    var r := FileMessages(cfg, names, firstId, disk, mime);
    forall j | 0 <= j < |r|
      ensures r[j].Serialized? && "filename" in r[j].fields && cfg.contentField in r[j].fields && "id" in r[j].fields &&
        r[j].fields["filename"] == JStr(names[j]) &&
        r[j].fields[cfg.contentField].JStr? &&
        Base64.Decode(r[j].fields[cfg.contentField].s) == Some(disk[names[j]]) &&
        r[j].fields["id"] == JStr(IdOf(firstId + j))
    {
      var b := disk[names[j]];
      FileMessagesAt(cfg, names, firstId, disk, mime, j);
      FileMessageValid(cfg, IdOf(firstId + j), Base64.Encode(b), names[j], mime(b));
      Base64.DecodeEncode(b);
    }
  }

  /** The watch folder and the files moved out of it, by destination path. */
  class FileSystem {
    var folderExists: bool
    var entries: map<string, seq<Base64.byte>>
    var processed: map<string, seq<Base64.byte>>

    constructor(folderExists: bool, entries: map<string, seq<Base64.byte>>)
      ensures this.folderExists == folderExists && this.entries == entries && processed == map[]
    {
      this.folderExists := folderExists;
      this.entries := entries;
      processed := map[];
    }

    /** `shutil.move(name, dest)`: the file leaves the folder and its content appears at `dest`. */
    method Move(name: string, dest: string)
      requires name in entries
      modifies this
      ensures entries == old(entries) - {name}
      ensures processed == old(processed)[dest := old(entries)[name]]
      ensures folderExists == old(folderExists)
    {
      processed := processed[dest := entries[name]];
      entries := entries - {name};
    }
  }

  /** A file whose reading does not raise. */
  predicate Readable(f: string, faults: map<string, FileFault>) {
    f !in faults || faults[f] != ReadFails
  }

  /** Appending a name appends its message, under the next id. */
  lemma FileMessagesSnoc(cfg: Settings, names: seq<string>, f: string, firstId: nat, disk: map<string, seq<Base64.byte>>,
                         mime: seq<Base64.byte> -> string)
    requires f in disk
    ensures FileMessages(cfg, names + [f], firstId, disk, mime) ==
      FileMessages(cfg, names, firstId, disk, mime) + [FileRecord(cfg, IdOf(firstId + |names|), disk[f], f, mime)]
  {
    assert (names + [f])[..|names|] == names;
  }

  /** What `send_files` can change: the folder, the processed files, the queues and the next id. */
  datatype Snapshot = Snapshot(entries: map<string, seq<Base64.byte>>, processed: map<string, seq<Base64.byte>>,
                               queues: Queues, next: nat)

  function Snap(fs: FileSystem, redis: RedisGateway): Snapshot
    reads fs, redis, redis.ids
  {
    Snapshot(fs.entries, fs.processed, redis.queues, redis.ids.next)
  }

  /**
   * `send_files(filepath)` on the state, with `fq` the files queue: a file
   * that cannot be read changes nothing; otherwise its message goes out
   * under the next id (and is lost when the link is down, as `send_message`
   * swallows the error), and the file moves to `dest` unless the move raises.
   */
  function SendFileStep(s: Snapshot, cfg: Settings, fq: string, f: string, faults: map<string, FileFault>, link: Link,
                        mime: seq<Base64.byte> -> string, dest: string): Snapshot
    requires f in s.entries
  {
    if !Readable(f, faults) then s
    else
      var queues := if link == Up then Push(s.queues, fq, FileRecord(cfg, IdOf(s.next), s.entries[f], f, mime)) else s.queues;
      if f in faults then Snapshot(s.entries, s.processed, queues, s.next + 1)
      else Snapshot(s.entries - {f}, s.processed[dest := s.entries[f]], queues, s.next + 1)
  }

  /** `send_files(filepath)`: read the file, send its message with a fresh id, then move it to `dest`. */
  method SendFile(fs: FileSystem, redis: RedisGateway, f: string, faults: map<string, FileFault>, link: Link,
                  mime: seq<Base64.byte> -> string, dest: string)
    returns (failed: bool)
    requires f in fs.entries
    modifies fs, redis, redis.ids
    ensures failed <==> f in faults
    ensures Snap(fs, redis) == SendFileStep(old(Snap(fs, redis)), redis.settings,
                                            ResolveQueue(redis.settings.filesQueue, redis.defaultQueue), f, faults, link, mime, dest)
    ensures fs.folderExists == old(fs.folderExists)
  {
    if f in faults && faults[f] == ReadFails {
      return true;
    }
    var bytes := fs.entries[f];
    var id := redis.GenerateMessageId();
    redis.SendMessage(FileRecord(redis.settings, id, bytes, f, mime).fields, redis.settings.filesQueue, link);
    if f in faults {
      return true;
    }
    fs.Move(f, dest);
    return false;
  }

  /** The names of `order` outside `drop`, in order. */
  function Keep(order: seq<string>, drop: set<string>): (r: seq<string>)
    ensures |r| <= |order|
    decreases |order|
  {
    if |order| == 0 then []
    else if order[|order| - 1] in drop then Keep(order[..|order| - 1], drop)
    else Keep(order[..|order| - 1], drop) + [order[|order| - 1]]
  }

  lemma {:induction false} KeepContents(order: seq<string>, drop: set<string>)
    requires forall i, j :: 0 <= i < j < |order| ==> order[i] != order[j]
    ensures forall f :: f in Keep(order, drop) <==> f in order && f !in drop
    ensures forall i, j :: 0 <= i < j < |Keep(order, drop)| ==> Keep(order, drop)[i] != Keep(order, drop)[j]
    decreases |order|
  {
    if |order| > 0 {
      var init := order[..|order| - 1];
      assert order == init + [order[|order| - 1]];
      KeepContents(init, drop);
      var last, r := order[|order| - 1], Keep(init, drop);
      assert last !in r;
      if last !in drop {
        forall i, j | 0 <= i < j < |r + [last]|
          ensures (r + [last])[i] != (r + [last])[j]
        {
          assert (r + [last])[i] == r[i];
          if j == |r| {
            assert r[i] in r && (r + [last])[j] == last;
          } else {
            assert (r + [last])[j] == r[j];
          }
        }
      }
    }
  }


  /** The files whose read raises. */
  function Unreadable(faults: map<string, FileFault>): (r: set<string>)
    ensures forall f :: f in r <==> !Readable(f, faults)
  {
    set f | f in faults && faults[f] == ReadFails
  }

  /** The names of a set, in the order the set yields them. */
  method Enumerate(files: set<string>) returns (order: seq<string>)
    ensures forall i, j :: 0 <= i < j < |order| ==> order[i] != order[j]
    ensures forall f :: f in order <==> f in files
  {
    order := [];
    var rest := files;
    while rest != {}
      invariant rest <= files
      invariant forall f :: f in order <==> f in files && f !in rest
      invariant forall i, j :: 0 <= i < j < |order| ==> order[i] != order[j]
      decreases rest
    {
      var f :| f in rest;
      order := order + [f];
      rest := rest - {f};
    }
  }

  /** Whether one of the names of `order` raises. */
  function Raises(order: seq<string>, faults: map<string, FileFault>): bool
    decreases |order|
  {
    |order| > 0 && (Raises(order[..|order| - 1], faults) || order[|order| - 1] in faults)
  }

  lemma {:induction false} RaisesIff(order: seq<string>, faults: map<string, FileFault>)
    ensures Raises(order, faults) <==> exists f :: f in order && f in faults
    decreases |order|
  {
    if |order| > 0 {
      var init := order[..|order| - 1];
      assert order == init + [order[|order| - 1]];
      RaisesIff(init, faults);
    }
  }

  lemma RaisesStep(order: seq<string>, i: nat, faults: map<string, FileFault>)
    requires i < |order|
    ensures Raises(order[..i + 1], faults) <==> Raises(order[..i], faults) || order[i] in faults
  {
    assert order[..i + 1][..i] == order[..i];
  }

  /** The folder after the files `moved` have left it, in that order. */
  function Without(entries: map<string, seq<Base64.byte>>, moved: seq<string>): map<string, seq<Base64.byte>>
    decreases |moved|
  {
    if |moved| == 0 then entries else Without(entries, moved[..|moved| - 1]) - {moved[|moved| - 1]}
  }

  lemma {:induction false} WithoutContents(entries: map<string, seq<Base64.byte>>, moved: seq<string>)
    ensures forall g :: g in Without(entries, moved) <==> g in entries && g !in moved
    ensures forall g :: g in Without(entries, moved) ==> Without(entries, moved)[g] == entries[g]
    decreases |moved|
  {
    if |moved| > 0 {
      WithoutContents(entries, moved[..|moved| - 1]);
      assert moved == moved[..|moved| - 1] + [moved[|moved| - 1]];
    }
  }

  /** The processed files after the files `moved` have been put at their destinations, in that order. */
  function Placed(processed: map<string, seq<Base64.byte>>, moved: seq<string>, entries: map<string, seq<Base64.byte>>,
                  dest: string -> string): map<string, seq<Base64.byte>>
    decreases |moved|
  {
    if |moved| == 0 then processed
    else
      var f := moved[|moved| - 1];
      Placed(processed, moved[..|moved| - 1], entries, dest)[dest(f) := if f in entries then entries[f] else []]
  }

  lemma {:induction false} PlacedContents(processed: map<string, seq<Base64.byte>>, moved: seq<string>,
                                          entries: map<string, seq<Base64.byte>>, dest: string -> string)
    requires forall f :: f in moved ==> f in entries
    requires forall f, g :: f in moved && g in moved && dest(f) == dest(g) ==> f == g
    ensures forall f :: f in moved ==>
      (dest(f) in Placed(processed, moved, entries, dest) && Placed(processed, moved, entries, dest)[dest(f)] == entries[f])
    ensures forall p :: p in Placed(processed, moved, entries, dest) ==>
      (exists f :: f in moved && p == dest(f)) || (p in processed && Placed(processed, moved, entries, dest)[p] == processed[p])
    decreases |moved|
  {
    if |moved| > 0 {
      var init, f := moved[..|moved| - 1], moved[|moved| - 1];
      assert moved == init + [f];
      PlacedContents(processed, init, entries, dest);
    }
  }

  /**
   * The files of `order` handled one after the other, from the state `s`; a
   * name no longer in the folder fails to open and changes nothing.
   */
  function SendSeq(s: Snapshot, cfg: Settings, fq: string, order: seq<string>, faults: map<string, FileFault>, link: Link,
                   mime: seq<Base64.byte> -> string, dest: string -> string): Snapshot
    decreases |order|
  {
    if |order| == 0 then s
    else
      var t := SendSeq(s, cfg, fq, order[..|order| - 1], faults, link, mime, dest);
      var f := order[|order| - 1];
      if f in t.entries then SendFileStep(t, cfg, fq, f, faults, link, mime, dest(f)) else t
  }

  /**
   * The state `r` of a tick from the state `s`, once the files `read` have
   * been sent and the files `moved` moved: the ids advanced once per file
   * read, the files queue holds their messages in order (when the link is
   * up), no other queue changed, and the moved files left the folder for
   * their destinations.
   */
  ghost predicate TickState(s: Snapshot, r: Snapshot, cfg: Settings, fq: string, read: seq<string>, moved: seq<string>,
                            link: Link, mime: seq<Base64.byte> -> string, dest: string -> string)
  {
    SentState(s, r, cfg, fq, read, link, mime) && MovedState(s, r, moved, dest)
  }

  ghost predicate SentState(s: Snapshot, r: Snapshot, cfg: Settings, fq: string, read: seq<string>, link: Link,
                            mime: seq<Base64.byte> -> string)
  {
    r.next == s.next + |read| &&
    Contents(r.queues, fq) == Contents(s.queues, fq) + (if link == Up then FileMessages(cfg, read, s.next, s.entries, mime) else []) &&
    (forall q :: q != fq ==> Contents(r.queues, q) == Contents(s.queues, q))
  }

  ghost predicate MovedState(s: Snapshot, r: Snapshot, moved: seq<string>, dest: string -> string) {
    r.entries == Without(s.entries, moved) &&
    r.processed == Placed(s.processed, moved, s.entries, dest)
  }

  /** One more file, read from the folder as it was, adds its message under the next id. */
  lemma StepSent(s: Snapshot, t: Snapshot, cfg: Settings, fq: string, f: string, faults: map<string, FileFault>,
                 read: seq<string>, link: Link, mime: seq<Base64.byte> -> string, dest: string)
    requires SentState(s, t, cfg, fq, read, link, mime)
    requires f in s.entries && f in t.entries && t.entries[f] == s.entries[f]
    ensures SentState(s, SendFileStep(t, cfg, fq, f, faults, link, mime, dest), cfg, fq,
                      if Readable(f, faults) then read + [f] else read, link, mime)
  {
    var r := SendFileStep(t, cfg, fq, f, faults, link, mime, dest);
    if Readable(f, faults) {
      var record := FileRecord(cfg, IdOf(t.next), t.entries[f], f, mime);
      assert r.next == t.next + 1;
      assert r.queues == if link == Up then Push(t.queues, fq, record) else t.queues;
      SentAppend(s, t, r, cfg, fq, f, read, link, mime);
    } else {
      assert r == t;
    }
  }

  /** The state after one more message, for file `f`, under the next id. */
  lemma SentAppend(s: Snapshot, t: Snapshot, r: Snapshot, cfg: Settings, fq: string, f: string, read: seq<string>,
                   link: Link, mime: seq<Base64.byte> -> string)
    requires SentState(s, t, cfg, fq, read, link, mime)
    requires f in s.entries && r.next == t.next + 1
    requires r.queues == if link == Up then Push(t.queues, fq, FileRecord(cfg, IdOf(t.next), s.entries[f], f, mime)) else t.queues
    ensures SentState(s, r, cfg, fq, read + [f], link, mime)
  {
    FileMessagesSnoc(cfg, read, f, s.next, s.entries, mime);
    if link == Up {
      var record := FileRecord(cfg, IdOf(t.next), s.entries[f], f, mime);
      AppendAssoc(Contents(s.queues, fq), FileMessages(cfg, read, s.next, s.entries, mime), [record]);
    }
  }

  /** One more file, not moved before, leaves the folder for its destination unless something raises. */
  lemma StepMoved(s: Snapshot, t: Snapshot, cfg: Settings, fq: string, f: string, faults: map<string, FileFault>,
                  moved: seq<string>, link: Link, mime: seq<Base64.byte> -> string, dest: string -> string)
    requires MovedState(s, t, moved, dest)
    requires f in s.entries && f !in moved
    ensures f in t.entries && t.entries[f] == s.entries[f]
    ensures MovedState(s, SendFileStep(t, cfg, fq, f, faults, link, mime, dest(f)), if f in faults then moved else moved + [f], dest)
  {
    WithoutContents(s.entries, moved);
    var r := SendFileStep(t, cfg, fq, f, faults, link, mime, dest(f));
    if f in faults {
      assert r.entries == t.entries && r.processed == t.processed;
    } else {
      var moved1 := moved + [f];
      assert moved1[..|moved1| - 1] == moved && moved1[|moved1| - 1] == f;
      assert r.entries == t.entries - {f};
      assert r.processed == t.processed[dest(f) := s.entries[f]];
    }
  }

  /** One more file, not moved before, keeps the state of the tick in step. */
  lemma StepState(s: Snapshot, t: Snapshot, cfg: Settings, fq: string, f: string, faults: map<string, FileFault>,
                  read: seq<string>, moved: seq<string>, link: Link, mime: seq<Base64.byte> -> string, dest: string -> string)
    requires TickState(s, t, cfg, fq, read, moved, link, mime, dest)
    requires f in s.entries && f !in moved
    ensures f in t.entries
    ensures TickState(s, SendFileStep(t, cfg, fq, f, faults, link, mime, dest(f)), cfg, fq,
                      if Readable(f, faults) then read + [f] else read, if f in faults then moved else moved + [f], link, mime, dest)
  {
    StepMoved(s, t, cfg, fq, f, faults, moved, link, mime, dest);
    StepSent(s, t, cfg, fq, f, faults, read, link, mime, dest(f));
  }

  /** A tick over distinct files of the folder reaches the state of its files read and moved. */
  lemma {:induction false} SendSeqState(s: Snapshot, cfg: Settings, fq: string, order: seq<string>, faults: map<string, FileFault>,
                                        link: Link, mime: seq<Base64.byte> -> string, dest: string -> string)
    requires forall i, j :: 0 <= i < j < |order| ==> order[i] != order[j]
    requires forall f :: f in order ==> f in s.entries
    ensures TickState(s, SendSeq(s, cfg, fq, order, faults, link, mime, dest), cfg, fq,
                      Keep(order, Unreadable(faults)), Keep(order, faults.Keys), link, mime, dest)
    decreases |order|
  {
    if |order| > 0 {
      var init, f := order[..|order| - 1], order[|order| - 1];
      assert order == init + [f];
      SendSeqState(s, cfg, fq, init, faults, link, mime, dest);
      KeepContents(init, faults.Keys);
      var t := SendSeq(s, cfg, fq, init, faults, link, mime, dest);
      var read, moved := Keep(init, Unreadable(faults)), Keep(init, faults.Keys);
      StepState(s, t, cfg, fq, f, faults, read, moved, link, mime, dest);
      assert SendSeq(s, cfg, fq, order, faults, link, mime, dest) == SendFileStep(t, cfg, fq, f, faults, link, mime, dest(f));
      assert Keep(order, Unreadable(faults)) == if Readable(f, faults) then read + [f] else read;
      assert Keep(order, faults.Keys) == if f in faults then moved else moved + [f];
    }
  }

  lemma AppendAssoc(a: seq<Raw>, b: seq<Raw>, c: seq<Raw>)
    ensures a + b + c == a + (b + c)
  {
  }

  /** The next file of a tick is still in the folder when its turn comes. */
  lemma Pending(s: Snapshot, cfg: Settings, fq: string, order: seq<string>, i: nat, faults: map<string, FileFault>,
                link: Link, mime: seq<Base64.byte> -> string, dest: string -> string)
    requires forall i, j :: 0 <= i < j < |order| ==> order[i] != order[j]
    requires forall f :: f in order ==> f in s.entries
    requires i < |order|
    ensures order[i] in SendSeq(s, cfg, fq, order[..i], faults, link, mime, dest).entries
  {
    SendSeqState(s, cfg, fq, order[..i], faults, link, mime, dest);
    KeepContents(order[..i], faults.Keys);
    WithoutContents(s.entries, Keep(order[..i], faults.Keys));
  }

  /** The files of a tick, taken in the order `order`, each through `send_files`. */
  method SendEach(fs: FileSystem, redis: RedisGateway, order: seq<string>, faults: map<string, FileFault>, link: Link,
                  mime: seq<Base64.byte> -> string, dest: string -> string)
    returns (failed: bool)
    requires forall i, j :: 0 <= i < j < |order| ==> order[i] != order[j]
    requires forall f :: f in order ==> f in fs.entries
    modifies fs, redis, redis.ids
    ensures failed == Raises(order, faults)
    ensures Snap(fs, redis) == SendSeq(old(Snap(fs, redis)), redis.settings, ResolveQueue(redis.settings.filesQueue, redis.defaultQueue),
                                       order, faults, link, mime, dest)
    ensures fs.folderExists == old(fs.folderExists)
  {
    ghost var s0 := Snap(fs, redis);
    var fq := ResolveQueue(redis.settings.filesQueue, redis.defaultQueue);
    failed := false;
    for i := 0 to |order|
      invariant failed == Raises(order[..i], faults)
      invariant Snap(fs, redis) == SendSeq(s0, redis.settings, fq, order[..i], faults, link, mime, dest)
      invariant fs.folderExists == old(fs.folderExists)
    {
      Pending(s0, redis.settings, fq, order, i, faults, link, mime, dest);
      RaisesStep(order, i, faults);
      assert order[..i + 1][..i] == order[..i];
      var bad := SendFile(fs, redis, order[i], faults, link, mime, dest(order[i]));
      failed := failed || bad;
    }
    assert order[..|order|] == order;
  }

  /**
   * `send_files` for every file of a tick, one after the other. A file that
   * cannot be read is neither sent nor moved; every other file is sent with
   * a fresh id, then moved to `dest(file)` unless the move raises. Any
   * raising file makes the tick fail, but the other files are still
   * handled, as `asyncio.gather` lets the other sends run on.
   */
  method SendAll(fs: FileSystem, redis: RedisGateway, files: set<string>, faults: map<string, FileFault>, link: Link,
                 mime: seq<Base64.byte> -> string, dest: string -> string)
    returns (failed: bool, ghost read: seq<string>)
    requires files <= fs.entries.Keys
    requires forall f, g :: f in files && g in files && dest(f) == dest(g) ==> f == g
    modifies fs, redis, redis.ids
    ensures failed <==> exists f :: f in files && f in faults
    ensures forall i, j :: 0 <= i < j < |read| ==> read[i] != read[j]
    ensures forall f :: f in read <==> f in files && Readable(f, faults)
    ensures redis.ids.next == old(redis.ids.next) + |read|
    ensures var fq := ResolveQueue(redis.settings.filesQueue, redis.defaultQueue);
      Contents(redis.queues, fq) == Contents(old(redis.queues), fq) +
        (if link == Up then FileMessages(redis.settings, read, old(redis.ids.next), old(fs.entries), mime) else []) &&
      forall q :: q != fq ==> Contents(redis.queues, q) == Contents(old(redis.queues), q)
    ensures forall g :: g in fs.entries <==> g in old(fs.entries) && !(g in files && g !in faults)
    ensures forall g :: g in fs.entries ==> fs.entries[g] == old(fs.entries)[g]
    ensures forall f :: f in files && f !in faults ==> dest(f) in fs.processed && fs.processed[dest(f)] == old(fs.entries)[f]
    ensures forall p :: p in fs.processed ==>
      (exists f :: f in files && f !in faults && p == dest(f)) || (p in old(fs.processed) && fs.processed[p] == old(fs.processed)[p])
    ensures fs.folderExists == old(fs.folderExists)
  {
    ghost var s0 := Snap(fs, redis);
    var order := Enumerate(files);
    failed := SendEach(fs, redis, order, faults, link, mime, dest);
    read := Keep(order, Unreadable(faults));
    ghost var moved := Keep(order, faults.Keys);
    SendSeqState(s0, redis.settings, ResolveQueue(redis.settings.filesQueue, redis.defaultQueue), order, faults, link, mime, dest);
    KeepContents(order, Unreadable(faults));
    KeepContents(order, faults.Keys);
    WithoutContents(s0.entries, moved);
    PlacedContents(s0.processed, moved, s0.entries, dest);
    RaisesIff(order, faults);
  }

  /** `WatcherService`: the names seen so far, the folders, and the gateway. */
  class WatcherService {
    var seen: set<string>
    const settings: WatchSettings
    const redis: RedisGateway
    const fs: FileSystem

    constructor(settings: WatchSettings, redis: RedisGateway, fs: FileSystem)
      ensures seen == {} && this.settings == settings && this.redis == redis && this.fs == fs
    {
      seen := {};
      this.settings := settings;
      this.redis := redis;
      this.fs := fs;
    }

    /** `get_current_files()`: raises when the watch folder is missing, else the supported names in it. */
    method GetCurrentFiles() returns (r: Option<set<string>>)
      ensures r.None? <==> !fs.folderExists
      ensures r.Some? ==> forall f :: f in r.value <==> f in fs.entries && IsSupported(f, settings.extensions)
    {
      if !fs.folderExists {
        return None;
      }
      return Some(CurrentFiles(fs.entries, settings.extensions));
    }

    /**
     * One iteration of `look_for_files`: every supported file is sent and
     * moved after its send; `seen` grows by the listed names only when
     * nothing raised; the tick always ends with the sleep.
     */
    method LookForFilesOnce(faults: map<string, FileFault>, link: Link, mime: seq<Base64.byte> -> string)
      returns (raised: bool, slept: bool, ghost read: seq<string>)
      requires forall f :: f in fs.entries ==> EntryName(f)
      modifies this, fs, redis, redis.ids
      ensures slept
      ensures var current := CurrentFiles(old(fs.entries), settings.extensions);
        (raised <==> !old(fs.folderExists) || exists f :: f in current && f in faults) &&
        seen == (if raised then old(seen) else old(seen) + current) &&
        (old(fs.folderExists) ==>
          (forall f :: f in read <==> f in current && Readable(f, faults)) &&
          (forall g :: g in fs.entries <==> g in old(fs.entries) && !(g in current && g !in faults)) &&
          (forall f :: f in current && f !in faults ==>
            ProcessedPath(settings, f) in fs.processed && fs.processed[ProcessedPath(settings, f)] == old(fs.entries)[f]) &&
          Contents(redis.queues, ResolveQueue(redis.settings.filesQueue, redis.defaultQueue)) ==
            Contents(old(redis.queues), ResolveQueue(redis.settings.filesQueue, redis.defaultQueue)) +
            (if link == Up then FileMessages(redis.settings, read, old(redis.ids.next), old(fs.entries), mime) else []))
      ensures old(fs.folderExists) ==>
        (forall i, j :: 0 <= i < j < |read| ==> read[i] != read[j]) &&
        redis.ids.next == old(redis.ids.next) + |read| &&
        (forall q :: q != ResolveQueue(redis.settings.filesQueue, redis.defaultQueue) ==>
          Contents(redis.queues, q) == Contents(old(redis.queues), q))
      ensures old(fs.folderExists) ==>
        (forall g :: g in fs.entries ==> fs.entries[g] == old(fs.entries)[g]) &&
        (forall p :: p in fs.processed ==>
          (exists f :: f in CurrentFiles(old(fs.entries), settings.extensions) && f !in faults && p == ProcessedPath(settings, f)) ||
          (p in old(fs.processed) && fs.processed[p] == old(fs.processed)[p]))
      ensures !old(fs.folderExists) ==>
        read == [] && fs.entries == old(fs.entries) && fs.processed == old(fs.processed) && redis.queues == old(redis.queues) &&
        redis.ids.next == old(redis.ids.next)
      ensures fs.folderExists == old(fs.folderExists)
    {
      slept := true;
      var current := GetCurrentFiles();
      if current.None? {
        return true, slept, [];
      }
      var files := current.value;
      var toSend := ToSend(files, seen);
      ToSendIsCurrent(files, seen);
      forall f, g | f in files && g in files && ProcessedPath(settings, f) == ProcessedPath(settings, g)
        ensures f == g
      {
        ProcessedPathInside(settings, f, g);
      }
      var failed;
      failed, read := SendAll(fs, redis, toSend, faults, link, mime, f => ProcessedPath(settings, f));
      if !failed {
        seen := seen + files;
      }
      raised := failed;
    }
  }
}
