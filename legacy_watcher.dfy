/**
 * The older file watcher of cybernetics-core/sentry.py. It keeps its seen
 * names and its gateway in module globals, lets `os.listdir` raise on a
 * missing watch folder, and joins the processed folder onto the watch folder
 * without stripping a leading `/`.
 */
module LegacyWatcher {
  import opened Text
  import opened QueueStore
  import opened Watcher
  import Base64

  /** `os.path.join(WATCH_FOLDER, PROCESSED_FOLDER)`. */
  function LegacyProcessedDir(ws: WatchSettings): string {
    PathJoin(ws.watchFolder, ws.processedFolder)
  }

  /** Where `os.rename` puts a sent file. */
  function LegacyProcessedPath(ws: WatchSettings, f: string): string {
    PathJoin(LegacyProcessedDir(ws), f)
  }

  /** With a relative processed folder, the older watcher moves files where the newer one does. */
  lemma LegacyAgreesWhenRelative(ws: WatchSettings, f: string)
    requires |ws.processedFolder| == 0 || ws.processedFolder[0] != '/'
    ensures LegacyProcessedPath(ws, f) == ProcessedPath(ws, f)
  {
    assert LStripSlash(ws.processedFolder) == ws.processedFolder;
  }

  /**
   * With an absolute processed folder, the watch folder drops out of the
   * join: the file goes under the processed folder itself, under its own
   * name, and two files still never collide.
   */
  lemma LegacyAbsoluteDropsWatchFolder(ws: WatchSettings, f: string, g: string)
    requires |ws.processedFolder| > 0 && ws.processedFolder[0] == '/'
    requires EntryName(f) && EntryName(g)
    ensures LegacyProcessedPath(ws, f) == PathJoin(ws.processedFolder, f)
    ensures StartsWith(LegacyProcessedPath(ws, f), ws.processedFolder)
    ensures BaseName(LegacyProcessedPath(ws, f)) == f
    ensures LegacyProcessedPath(ws, f) == LegacyProcessedPath(ws, g) ==> f == g
  {
    PathJoinRelative(ws.processedFolder, f);
    BaseNameOfJoin(ws.processedFolder, f);
    PathJoinInjective(ws.processedFolder, f, g);
  }

  /**
   * The watch folder `/data` with the processed folder `/processed`: the
   * older watcher moves `a.pdf` to `/processed/a.pdf`, outside the watch
   * folder (the newer one keeps it inside, by `ProcessedPathInside`).
   */
  lemma LegacyEscapesWatchFolder()
    ensures var ws := WatchSettings("/data", "/processed", {".pdf"});
      LegacyProcessedPath(ws, "a.pdf") == "/processed/a.pdf" &&
      !StartsWith(LegacyProcessedPath(ws, "a.pdf"), ws.watchFolder)
  {
    var ws := WatchSettings("/data", "/processed", {".pdf"});
    assert LegacyProcessedDir(ws) == "/processed";
    assert JoinPrefix("/processed") == "/processed/";
    var legacy := LegacyProcessedPath(ws, "a.pdf");
    assert legacy == "/processed/" + "a.pdf";
    assert legacy[1] == 'p';
  }

  /** The module-level `seen_files` set. */
  class SeenFiles {
    var names: set<string>

    constructor()
      ensures names == {}
    {
      names := {};
    }
  }

  /**
   * One iteration of `look_for_files`: a missing watch folder makes
   * `os.listdir` raise before anything is sent; otherwise every supported
   * file is sent and renamed into the processed folder, and the listed names
   * join `seen_files` only when nothing raised. Whatever happened, the
   * iteration ends with the `CHECK_INTERVAL` sleep.
   */
  method LookForFilesOnce(seen: SeenFiles, ws: WatchSettings, fs: FileSystem, redis: RedisGateway,
                          faults: map<string, FileFault>, link: Link, mime: seq<Base64.byte> -> string)
    returns (raised: bool, slept: bool, ghost read: seq<string>)
    requires forall f :: f in fs.entries ==> EntryName(f)
    modifies seen, fs, redis, redis.ids
    ensures slept
    ensures var current := CurrentFiles(old(fs.entries), ws.extensions);
      (raised <==> !old(fs.folderExists) || exists f :: f in current && f in faults) &&
      seen.names == (if raised then old(seen.names) else old(seen.names) + current) &&
      (old(fs.folderExists) ==>
        (forall f :: f in read <==> f in current && Readable(f, faults)) &&
        (forall g :: g in fs.entries <==> g in old(fs.entries) && !(g in current && g !in faults)) &&
        (forall f :: f in current && f !in faults ==>
          LegacyProcessedPath(ws, f) in fs.processed && fs.processed[LegacyProcessedPath(ws, f)] == old(fs.entries)[f]) &&
        Contents(redis.queues, ResolveQueue(redis.settings.filesQueue, redis.defaultQueue)) ==
          Contents(old(redis.queues), ResolveQueue(redis.settings.filesQueue, redis.defaultQueue)) +
          (if link == Up then FileMessages(redis.settings, read, old(redis.ids.next), old(fs.entries), mime) else []))
    ensures old(fs.folderExists) ==>
      (forall i, j :: 0 <= i < j < |read| ==> read[i] != read[j]) &&
      redis.ids.next == old(redis.ids.next) + |read| &&
      (forall q :: q != ResolveQueue(redis.settings.filesQueue, redis.defaultQueue) ==>
        Contents(redis.queues, q) == Contents(old(redis.queues), q))
    ensures old(fs.folderExists) ==>
      (forall g :: g in fs.entries ==> fs.entries[g] == old(fs.entries)[g]) &&
      (forall p :: p in fs.processed ==>
        (exists f :: f in CurrentFiles(old(fs.entries), ws.extensions) && f !in faults && p == LegacyProcessedPath(ws, f)) ||
        (p in old(fs.processed) && fs.processed[p] == old(fs.processed)[p]))
    ensures !old(fs.folderExists) ==>
      read == [] && fs.entries == old(fs.entries) && fs.processed == old(fs.processed) && redis.queues == old(redis.queues) &&
      redis.ids.next == old(redis.ids.next)
    ensures fs.folderExists == old(fs.folderExists)
  {
    slept := true;
    if !fs.folderExists {
      return true, slept, [];
    }
    var current := CurrentFiles(fs.entries, ws.extensions);
    var toSend := ToSend(current, seen.names);
    ToSendIsCurrent(current, seen.names);
    forall f, g | f in current && g in current
      ensures LegacyProcessedPath(ws, f) == LegacyProcessedPath(ws, g) ==> f == g
    {
      PathJoinInjective(LegacyProcessedDir(ws), f, g);
    }
    raised, read := SendAll(fs, redis, toSend, faults, link, mime, f => LegacyProcessedPath(ws, f));
    if !raised {
      seen.names := seen.names + current;
    }
  }
}
