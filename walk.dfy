/**
 * What the operations of the `Downloader` class do, as functions from the
 * state before to the outcome and the state after: `makePath`,
 * `ensureDestination`, `getSource`/`validateSource`, `download`,
 * `traverseSource` and the part of `startBackup` that chains them. The state
 * is the set of (normalised) paths on the local disk, how many uuid suffixes
 * were drawn, the trace of remote listings, directory creations and
 * downloads, and the log.
 */
module Walk {
  import opened Wrappers
  import opened PathNames
  import opened Drive
  import opened Retry
  import opened Transfer

  /** A remote listing with query `query`; a directory created at `path`; `download(item, dir)` called. */
  datatype Event = List(query: string) | Mkdir(path: string) | Download(id: string, dir: string)

  /**
   * The settings and oracles of one run: `--graceful`, `--gDocConversion`,
   * the `n`-th `uuid.uuid4().hex` drawn, and the answers `next_chunk()`
   * gives for an item. `barDefined` says which body `downloadChunks` has:
   * false is the code as written, where line 221 names the progress bar whose
   * definition on line 216 is commented out; true is that code with the bar
   * defined.
   */
  datatype Config = Config(
    graceful: bool,
    target: Target,
    uuidHex: nat -> string,
    barDefined: bool,
    answers: Item -> seq<ChunkResponse>)

  datatype State = State(disk: set<string>, drawn: nat, trace: seq<Event>, log: seq<LogEntry>)

  /** How an operation ended: it returned `value`, or raised `exc`. */
  datatype Outcome<T> = Returned(value: T) | Raised(exc: PyException)

  datatype Step<T> = Step(outcome: Outcome<T>, state: State)

  /** `os.mkdir(p)`: fails when `p` exists (missing parents are not modelled). */
  function MakeDir(p: string, st: State): Step<string> {
    if Exists(st.disk, p) then Step(Raised(FileExists(p)), st)
    else Step(Returned(p), st.(disk := st.disk + {Normalize(p)}, trace := st.trace + [Mkdir(p)]))
  }

  /** The path `makePath` tries first: the sanitised name joined to `path`. */
  function Candidate(path: string, addition: string): string {
    Join(path, Sanitize(addition))
  }

  /** `makePath(path, addition)`, lines 176-186. */
  function MakePath(cfg: Config, path: string, addition: string, st: State): Step<string> {
    var candidate := Candidate(path, addition);
    if Exists(st.disk, candidate) then
      var renamed := candidate + cfg.uuidHex(st.drawn);
      MakeDir(renamed, st.(drawn := st.drawn + 1, log := st.log + [Warning(DuplicateFolder(renamed))]))
    else
      MakeDir(candidate, st)
  }

  /** `ensureDestination(dest)`, lines 152-164. */
  function EnsureDestination(dest: string, st: State): Step<string> {
    if !IsAbs(dest) then
      Step(Raised(Abort), st.(log := st.log + [Error(NotAbsolute(dest))]))
    else if Exists(st.disk, dest) then
      Step(Raised(Abort), st.(log := st.log + [Error(DestinationExists(dest))]))
    else
      MakeDir(dest, st)
  }

  /** `getSource(source, q)` after its guard: one remote listing, which raises through `abortBackup` on failure. */
  function Query(source: string, q: string, listing: Listing, st: State): (r: Step<seq<Node>>)
    ensures r.outcome.Returned? <==> listing.Listed?
    ensures r.outcome.Returned? ==> r.outcome.value == listing.nodes
  {
    var st1 := st.(trace := st.trace + [List(q)]);
    match listing
    case ListingFails => Step(Raised(Abort), st1.(log := st1.log + [Error(SourceListingFailed(source))]))
    case Listed(nodes) => Step(Returned(nodes), st1)
  }

  /** `validateSource(source)`: `getSource` with the name query; `None` and `""` fail before any remote call. */
  function ValidateSource(source: Option<string>, rootListing: Listing, st: State): Step<seq<Node>> {
    if source.None? || source.value == "" then
      Step(Raised(Abort), st.(log := st.log + [Error(NoSource)]))
    else
      Query(source.value, NameQuery(source.value), rootListing, st)
  }

  /** `getSource(item, "'<id>' in parents")` for a folder: the item dict is never empty, so the guard passes. */
  function Children(node: Node, st: State): (r: Step<seq<Node>>)
    ensures r.outcome.Returned? <==> node.listing.Listed?
    ensures r.outcome.Returned? ==> r.outcome.value == node.listing.nodes
  {
    Query(node.item.id, ChildQuery(node.item.id), node.listing, st)
  }

  /** What call `k` of the retried `downloadChunks` does for `item`, as the wrapper sees it. */
  function ChunkCalls(cfg: Config, item: Item): (nat, seq<Arg<string>>) -> Attempt<Option<ChunkStatus>> {
    if cfg.barDefined then ResumedChunkCall(cfg.answers(item)) else AsWrittenChunkCall
  }

  /** `download(file, dest)`, lines 194-245. */
  function DownloadFile(cfg: Config, item: Item, dest: string, st: State): Step<()> {
    var st1 := st.(trace := st.trace + [Download(item.id, dest)]);
    match DownloadPlan(item, cfg.target)
    case None => Step(Raised(KeyError(item.mimeType)), st1)
    case Some(plan) =>
      var filePath := Join(dest, plan.0);
      var run := RetryFrom(DownloadRetries, true, [], map[], ChunkCalls(cfg, item), 0);
      var check := CheckResult(run.result, cfg.graceful, filePath, item.name);
      var st2 := st1.(disk := st1.disk + {Normalize(filePath)}, log := st1.log + run.log + check.1);
      if check.0.Some? then Step(Raised(check.0.value), st2) else Step(Returned(()), st2)
  }

  /** The first comprehension of `traverseSource`: download every file item, from index `i` on. */
  function WalkFiles(cfg: Config, sources: seq<Node>, i: nat, dir: string, st: State): Step<()>
    requires i <= |sources|
    decreases |sources| - i
  {
    if i == |sources| then Step(Returned(()), st)
    else if IsFile(sources[i].item) then
      var d := DownloadFile(cfg, sources[i].item, dir, st);
      if d.outcome.Raised? then d else WalkFiles(cfg, sources, i + 1, dir, d.state)
    else WalkFiles(cfg, sources, i + 1, dir, st)
  }

  /**
   * The element of the second comprehension for one folder: list its
   * children, then create its directory, then walk the children there.
   */
  function EnterFolder(cfg: Config, node: Node, dir: string, st: State): Step<()>
    decreases node.listing, 2, 0
  {
    var l := Children(node, st);
    if l.outcome.Raised? then Step(Raised(l.outcome.exc), l.state)
    else
      var p := MakePath(cfg, dir, node.item.name, l.state);
      if p.outcome.Raised? then Step(Raised(p.outcome.exc), p.state)
      else Traverse(cfg, node.listing.nodes, p.outcome.value, p.state)
  }

  /** The second comprehension: enter every folder item from index `i` on, in list order. */
  function WalkFolders(cfg: Config, sources: seq<Node>, i: nat, dir: string, st: State): Step<()>
    requires i <= |sources|
    decreases Listed(sources), 0, |sources| - i
  {
    if i == |sources| then Step(Returned(()), st)
    else if IsFolder(sources[i].item) then
      assert sources[i] in sources;
      var w := EnterFolder(cfg, sources[i], dir, st);
      if w.outcome.Raised? then w else WalkFolders(cfg, sources, i + 1, dir, w.state)
    else WalkFolders(cfg, sources, i + 1, dir, st)
  }

  /** `traverseSource(sources, directory)`. */
  function Traverse(cfg: Config, sources: seq<Node>, dir: string, st: State): Step<()>
    decreases Listed(sources), 1, 0
  {
    var f := WalkFiles(cfg, sources, 0, dir, st);
    if f.outcome.Raised? then f else WalkFolders(cfg, sources, 0, dir, f.state)
  }

  /** `startBackup` from `validateSource` to `traverseSource` (the user query and compression are left out). */
  function Backup(cfg: Config, source: Option<string>, rootListing: Listing, dest: string, st: State): Step<()> {
    var v := ValidateSource(source, rootListing, st);
    if v.outcome.Raised? then Step(Raised(v.outcome.exc), v.state)
    else
      var d := EnsureDestination(dest, v.state.(log := v.state.log + [Info(SourcesFound)]));
      if d.outcome.Raised? then Step(Raised(d.outcome.exc), d.state)
      else
        var root := d.outcome.value;
        Traverse(cfg, v.outcome.value, root, d.state.(log := d.state.log + [Info(DestinationCreated(root))]))
  }
}
