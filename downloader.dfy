/**
 * The `Downloader` object: its operations update the local disk, the count
 * of uuid suffixes drawn, the trace of remote calls and the log in place.
 * Every method is proved to do exactly what the function of the same name
 * in module Walk says, from the state it started in.
 */
module Backup {
  import opened Wrappers
  import opened PathNames
  import opened Drive
  import opened Retry
  import opened Transfer
  import Walk
  import WalkProperties

  class Downloader {
    /** `self.args` (`--graceful`, `--gDocConversion`), the oracles for uuids and `next_chunk()` answers, and which body `downloadChunks` has. */
    const config: Walk.Config
    /** The (normalised) paths that exist on the local disk. */
    var disk: set<string>
    /** How many `uuid.uuid4()` values have been drawn. */
    var drawn: nat
    /** The remote listings, directory creations and downloads so far. */
    var trace: seq<Walk.Event>
    /** The records written to the logger so far. */
    var log: seq<LogEntry>

    function Snapshot(): Walk.State
      reads this
    {
      Walk.State(disk, drawn, trace, log)
    }

    /** The disk holds normalised paths, the form `PathNames.Exists` looks up. */
    constructor(config: Walk.Config, disk: set<string>)
      requires forall p :: p in disk ==> PathNames.Normalize(p) == p
      ensures this.config == config
      ensures Snapshot() == Walk.State(disk, 0, [], [])
    {
      this.config := config;
      this.disk := disk;
      drawn := 0;
      trace := [];
      log := [];
    }

    /** `os.mkdir(p)`. */
    method MakeDir(p: string) returns (o: Walk.Outcome<string>)
      modifies this
      ensures Walk.Step(o, Snapshot()) == Walk.MakeDir(p, old(Snapshot()))
    {
      if Normalize(p) in disk {
        return Walk.Raised(FileExists(p));
      }
      disk := disk + {Normalize(p)};
      trace := trace + [Walk.Mkdir(p)];
      return Walk.Returned(p);
    }

    /** `makePath(path, addition)`. */
    method MakePath(path: string, addition: string) returns (o: Walk.Outcome<string>)
      modifies this
      ensures Walk.Step(o, Snapshot()) == Walk.MakePath(config, path, addition, old(Snapshot()))
    {
      ghost var s0 := Snapshot();
      var candidate := Walk.Candidate(path, addition);
      if Exists(disk, candidate) {
        candidate := candidate + config.uuidHex(drawn);
        drawn := drawn + 1;
        log := log + [Warning(DuplicateFolder(candidate))];
        assert Snapshot() == s0.(drawn := s0.drawn + 1, log := s0.log + [Warning(DuplicateFolder(candidate))]);
      } else {
        assert Snapshot() == s0;
      }
      o := MakeDir(candidate);
    }

    /** `ensureDestination(dest)`. */
    method EnsureDestination(dest: string) returns (o: Walk.Outcome<string>)
      modifies this
      ensures Walk.Step(o, Snapshot()) == Walk.EnsureDestination(dest, old(Snapshot()))
    {
      if !IsAbs(dest) {
        log := log + [Error(NotAbsolute(dest))];
        return Walk.Raised(Abort);
      }
      if Exists(disk, dest) {
        log := log + [Error(DestinationExists(dest))];
        return Walk.Raised(Abort);
      }
      o := MakeDir(dest);
    }

    /** `getSource(source, q)` once its guard has passed; `listing` is what the service answers. */
    method GetSource(source: string, q: string, listing: Listing) returns (o: Walk.Outcome<seq<Node>>)
      modifies this
      ensures Walk.Step(o, Snapshot()) == Walk.Query(source, q, listing, old(Snapshot()))
    {
      trace := trace + [Walk.List(q)];
      if listing.ListingFails? {
        log := log + [Error(SourceListingFailed(source))];
        return Walk.Raised(Abort);
      }
      return Walk.Returned(listing.nodes);
    }

    /** `validateSource(source)`, with `getSource`'s guard against a missing source. */
    method ValidateSource(source: Option<string>, rootListing: Listing) returns (o: Walk.Outcome<seq<Node>>)
      modifies this
      ensures Walk.Step(o, Snapshot()) == Walk.ValidateSource(source, rootListing, old(Snapshot()))
    {
      if source.None? || source.value == "" {
        log := log + [Error(NoSource)];
        return Walk.Raised(Abort);
      }
      o := GetSource(source.value, NameQuery(source.value), rootListing);
    }

    /** `download(file, dest)`: pick name and request, create the file, run the retried chunk loop, check the result. */
    method Download(item: Item, dest: string) returns (o: Walk.Outcome<()>)
      modifies this
      ensures Walk.Step(o, Snapshot()) == Walk.DownloadFile(config, item, dest, old(Snapshot()))
    {
      trace := trace + [Walk.Download(item.id, dest)];
      var plan := DownloadPlan(item, config.target);
      if plan.None? {
        return Walk.Raised(KeyError(item.mimeType));
      }
      var filePath := Join(dest, plan.value.0);
      disk := disk + {Normalize(filePath)};
      var run := RetryOnFailure(DownloadRetries, true, [], map[], Walk.ChunkCalls(config, item));
      var check := CheckResult(run.result, config.graceful, filePath, item.name);
      log := log + run.log + check.1;
      if check.0.Some? {
        return Walk.Raised(check.0.value);
      }
      return Walk.Returned(());
    }

    /** The first comprehension of `traverseSource`: download every file item into `directory`, in list order. */
    method DownloadFiles(sources: seq<Node>, directory: string) returns (o: Walk.Outcome<()>)
      modifies this
      ensures Walk.Step(o, Snapshot()) == Walk.WalkFiles(config, sources, 0, directory, old(Snapshot()))
    {
      var i := 0;
      while i < |sources|
        invariant 0 <= i <= |sources|
        invariant Walk.WalkFiles(config, sources, 0, directory, old(Snapshot()))
               == Walk.WalkFiles(config, sources, i, directory, Snapshot())
      {
        if IsFile(sources[i].item) {
          var d := Download(sources[i].item, directory);
          if d.Raised? {
            return d;
          }
        }
        i := i + 1;
      }
      return Walk.Returned(());
    }

    /** One element of the second comprehension: list the folder's children, create its directory, and walk the children there. */
    method EnterFolder(node: Node, directory: string) returns (o: Walk.Outcome<()>)
      modifies this
      ensures Walk.Step(o, Snapshot()) == Walk.EnterFolder(config, node, directory, old(Snapshot()))
      decreases node.listing, 2
    {
      var children := GetSource(node.item.id, ChildQuery(node.item.id), node.listing);
      if children.Raised? {
        return Walk.Raised(children.exc);
      }
      var sub := MakePath(directory, node.item.name);
      if sub.Raised? {
        return Walk.Raised(sub.exc);
      }
      o := TraverseSource(children.value, sub.value);
    }

    /** The second comprehension of `traverseSource`: enter every folder item, in list order. */
    method EnterFolders(sources: seq<Node>, directory: string) returns (o: Walk.Outcome<()>)
      modifies this
      ensures Walk.Step(o, Snapshot()) == Walk.WalkFolders(config, sources, 0, directory, old(Snapshot()))
      decreases Listed(sources), 0
    {
      var i := 0;
      while i < |sources|
        invariant 0 <= i <= |sources|
        invariant Walk.WalkFolders(config, sources, 0, directory, old(Snapshot()))
               == Walk.WalkFolders(config, sources, i, directory, Snapshot())
      {
        var w := EnterFolderAt(sources, i, directory);
        if w.Raised? {
          return w;
        }
        i := i + 1;
      }
      return Walk.Returned(());
    }

    /** The body of the second comprehension for `sources[i]`: enter it if it is a folder. */
    method EnterFolderAt(sources: seq<Node>, i: nat, directory: string) returns (o: Walk.Outcome<()>)
      requires i < |sources|
      modifies this
      ensures Walk.WalkFolders(config, sources, i, directory, old(Snapshot()))
           == if o.Raised? then Walk.Step(o, Snapshot())
              else Walk.WalkFolders(config, sources, i + 1, directory, Snapshot())
      decreases Listed(sources), 0, 0
    {
      ghost var s0 := Snapshot();
      if IsFolder(sources[i].item) {
        assert sources[i] in sources;
        o := EnterFolder(sources[i], directory);
        WalkProperties.WalkFoldersEnters(config, sources, i, directory, s0, Walk.Step(o, Snapshot()));
      } else {
        WalkProperties.WalkFoldersSkips(config, sources, i, directory, s0);
        o := Walk.Returned(());
      }
    }

    /**
     * `traverseSource(sources, directory)`: download every file item into
     * `directory`, then enter every folder item. The first exception ends the
     * traversal.
     */
    method TraverseSource(sources: seq<Node>, directory: string) returns (o: Walk.Outcome<()>)
      modifies this
      ensures Walk.Step(o, Snapshot()) == Walk.Traverse(config, sources, directory, old(Snapshot()))
      decreases Listed(sources), 1
    {
      o := DownloadFiles(sources, directory);
      if o.Raised? {
        return;
      }
      o := EnterFolders(sources, directory);
    }

    /** `startBackup` from `validateSource` through `traverseSource`. */
    method StartBackup(source: Option<string>, rootListing: Listing, destination: string) returns (o: Walk.Outcome<()>)
      modifies this
      ensures Walk.Step(o, Snapshot()) == Walk.Backup(config, source, rootListing, destination, old(Snapshot()))
    {
      var sources := ValidateSource(source, rootListing);
      if sources.Raised? {
        return Walk.Raised(sources.exc);
      }
      log := log + [Info(SourcesFound)];
      var root := EnsureDestination(destination);
      if root.Raised? {
        return Walk.Raised(root.exc);
      }
      log := log + [Info(DestinationCreated(root.value))];
      o := TraverseSource(sources.value, root.value);
    }
  }
}
