/**
 * What the operations of module Walk guarantee: the guards that run before
 * any side effect, how `makePath` adds exactly one directory, the order of
 * events in `traverseSource`, and what the as-written download does to a
 * whole run.
 */
module WalkProperties {
  import opened Wrappers
  import opened PathNames
  import opened Drive
  import opened Retry
  import opened Transfer
  import opened Walk

  /**
   * `makePath` creates exactly one directory and changes nothing else on
   * disk: the sanitised name under `path` when that is free, otherwise that
   * name with the uuid suffix appended directly; a second collision is not
   * checked for, so `os.mkdir` raises. The directory it returns is new, lies
   * under `path`, and exists afterwards.
   */
  lemma MakePathAddsOneDirectory(cfg: Config, path: string, addition: string, st: State)
    ensures var r := MakePath(cfg, path, addition, st);
      var candidate := Candidate(path, addition);
      var renamed := candidate + cfg.uuidHex(st.drawn);
      && (!Exists(st.disk, candidate) ==>
            r.outcome == Returned(candidate) && r.state.disk == st.disk + {Normalize(candidate)}
            && r.state.drawn == st.drawn && r.state.log == st.log)
      && (Exists(st.disk, candidate) ==> r.state.log == st.log + [Warning(DuplicateFolder(renamed))])
      && (Exists(st.disk, candidate) && !Exists(st.disk, renamed) ==>
            r.outcome == Returned(renamed) && r.state.disk == st.disk + {Normalize(renamed)}
            && r.state.drawn == st.drawn + 1)
      && (Exists(st.disk, candidate) && Exists(st.disk, renamed) ==>
            r.outcome == Raised(FileExists(renamed)) && r.state.disk == st.disk)
      && (r.outcome.Returned? ==>
            && !Exists(st.disk, r.outcome.value)
            && Exists(r.state.disk, r.outcome.value)
            && candidate <= r.outcome.value
            && IsUnder(path, r.outcome.value)
            && (Exists(st.disk, path) ==> StrictlyUnder(path, r.outcome.value))
            && r.state.trace == st.trace + [Mkdir(r.outcome.value)])
  {
    var r := MakePath(cfg, path, addition, st);
    var seg := Sanitize(addition);
    var candidate := Candidate(path, addition);
    if |seg| > 0 {
      assert seg[0] in seg;
    }
    JoinSegmentStaysUnder(path, seg);
    JoinEmptyNamesSameDirectory(path);
    if r.outcome.Returned? && Exists(st.disk, candidate) {
      PrefixTransitive(Join(path, ""), candidate, r.outcome.value);
      if Exists(st.disk, path) && seg == [] {
        assert r.outcome.value != candidate;
      }
    }
  }

  /**
   * `ensureDestination` raises through `abortBackup`, creating nothing, when
   * `dest` is not absolute or already exists; otherwise it creates exactly
   * `dest` and returns it.
   */
  lemma EnsureDestinationGuards(dest: string, st: State)
    ensures var r := EnsureDestination(dest, st);
      && (r.outcome.Raised? <==> !IsAbs(dest) || Exists(st.disk, dest))
      && (r.outcome.Raised? ==> r.outcome.exc == Abort && r.state.disk == st.disk && r.state.trace == st.trace)
      && (r.outcome.Returned? ==>
            r.outcome.value == dest && r.state.disk == st.disk + {Normalize(dest)}
            && r.state.trace == st.trace + [Mkdir(dest)])
  {
  }

  /**
   * `validateSource` raises before any remote call when no source is given;
   * otherwise it makes exactly one listing, with the name query, and raises
   * when that listing fails. No setting is consulted.
   */
  lemma ValidateSourceGuards(source: Option<string>, rootListing: Listing, st: State)
    ensures var r := ValidateSource(source, rootListing, st);
      && (source.None? || source.value == "" ==> r.outcome == Raised(Abort) && r.state.trace == st.trace)
      && (source.Some? && source.value != "" ==> r.state.trace == st.trace + [List(NameQuery(source.value))])
      && (r.outcome.Raised? <==> source.None? || source.value == "" || rootListing.ListingFails?)
      && (r.outcome.Returned? ==> r.outcome.value == rootListing.nodes)
      && r.state.disk == st.disk
  {
  }

  /** A failed child listing raises `abortBackup`'s exception in either mode, before the folder's directory is made. */
  lemma ListingFailureIsFatal(cfg: Config, sources: seq<Node>, i: nat, dir: string, st: State)
    requires i < |sources| && IsFolder(sources[i].item) && sources[i].listing.ListingFails?
    ensures var r := WalkFolders(cfg, sources, i, dir, st);
      && r.outcome == Raised(Abort)
      && r.state.trace == st.trace + [List(ChildQuery(sources[i].item.id))]
      && r.state.disk == st.disk
  {
  }

  // ----- Trace discipline of a walk -----

  /**
   * Between states `a` and `b` (the events appended to the trace after `a`):
   * nothing is removed from the disk; every directory created was absent
   * before and exists after, directly follows a listing, and differs from
   * every other one created; every download is called with one of `roots`, or
   * a directory created earlier in the same stretch, as its destination (the
   * file is written to `Join(dest, name)`, which need not lie inside it; see
   * `AbsoluteFileNameEscapes`).
   */
  ghost predicate Sound(a: State, b: State, roots: set<string>) {
    && a.disk <= b.disk
    && a.trace <= b.trace
    && (forall i :: |a.trace| <= i < |b.trace| && b.trace[i].Mkdir? ==>
          && |a.trace| < i && b.trace[i - 1].List?
          && Normalize(b.trace[i].path) !in a.disk
          && Normalize(b.trace[i].path) in b.disk)
    && (forall i, j :: |a.trace| <= j < i < |b.trace| && b.trace[j].Mkdir? && b.trace[i].Mkdir? ==>
          Normalize(b.trace[j].path) != Normalize(b.trace[i].path))
    && (forall i :: |a.trace| <= i < |b.trace| && b.trace[i].Download? ==>
          b.trace[i].dir in roots || Mkdir(b.trace[i].dir) in b.trace[|a.trace|..i])
  }

  lemma InSliceWiden<T>(s: seq<T>, x: T, lo: int, hi: int, lo2: int, hi2: int)
    requires 0 <= lo2 <= lo <= hi <= hi2 <= |s|
    requires x in s[lo..hi]
    ensures x in s[lo2..hi2]
  {
    var k :| 0 <= k < hi - lo && s[lo..hi][k] == x;
    assert s[lo2..hi2][k + lo - lo2] == x;
  }

  /** Two sound stretches make a sound stretch when the second one's roots are roots of the first or were created in it. */
  lemma SoundCompose(a: State, b: State, c: State, r1: set<string>, r2: set<string>)
    requires Sound(a, b, r1) && Sound(b, c, r2)
    requires forall d :: d in r2 ==> d in r1 || Mkdir(d) in b.trace[|a.trace|..]
    ensures Sound(a, c, r1)
  {
    var A, B, C := |a.trace|, |b.trace|, |c.trace|;
    assert c.trace[..B] == b.trace;
    assert b.trace[..A] == a.trace;
    assert c.trace[..A] == a.trace;
    forall i | A <= i < C && c.trace[i].Mkdir?
      ensures A < i && c.trace[i - 1].List?
      ensures Normalize(c.trace[i].path) !in a.disk && Normalize(c.trace[i].path) in c.disk
    {
      if i < B {
        assert c.trace[i] == b.trace[i];
        assert c.trace[i - 1] == b.trace[i - 1];
      }
    }
    forall i, j | A <= j < i < C && c.trace[j].Mkdir? && c.trace[i].Mkdir?
      ensures Normalize(c.trace[j].path) != Normalize(c.trace[i].path)
    {
      if i < B {
        assert c.trace[i] == b.trace[i] && c.trace[j] == b.trace[j];
      } else if j < B {
        assert c.trace[j] == b.trace[j];
      }
    }
    forall i | A <= i < C && c.trace[i].Download?
      ensures c.trace[i].dir in r1 || Mkdir(c.trace[i].dir) in c.trace[A..i]
    {
      var d := c.trace[i].dir;
      if i < B {
        assert c.trace[i] == b.trace[i];
        assert c.trace[A..i] == b.trace[A..i];
      } else if d in r2 {
        if d !in r1 {
          assert b.trace[A..] == c.trace[A..B];
          InSliceWiden(c.trace, Mkdir(d), A, B, A, i);
        }
      } else {
        InSliceWiden(c.trace, Mkdir(d), B, i, A, i);
      }
    }
  }

  lemma DownloadSound(cfg: Config, item: Item, dir: string, st: State)
    ensures Sound(st, DownloadFile(cfg, item, dir, st).state, {dir})
  {
    DownloadTrace(cfg, item, dir, st);
  }

  lemma DownloadTrace(cfg: Config, item: Item, dir: string, st: State)
    ensures DownloadFile(cfg, item, dir, st).state.trace == st.trace + [Download(item.id, dir)]
    ensures st.disk <= DownloadFile(cfg, item, dir, st).state.disk
  {
  }

  /**
   * Whichever body `downloadChunks` has, the partial-download branch of
   * lines 242-245 never runs, since a call that returns has `done`. So
   * `download` raises exactly on the table's `KeyError` or when the wrapper
   * gave up, and it logs nothing beyond the wrapper's records and, when the
   * wrapper gave up, the failed-download error.
   */
  lemma DownloadNeverPartial(cfg: Config, item: Item, dir: string, st: State)
    ensures var r := DownloadFile(cfg, item, dir, st);
      var plan := DownloadPlan(item, cfg.target);
      var run := RetryFrom(DownloadRetries, true, [], map[], ChunkCalls(cfg, item), 0);
      && (r.outcome.Raised? <==> plan.None? || run.result.None?)
      && (plan.None? ==> r.state.log == st.log)
      && (plan.Some? ==>
            r.state.log == st.log + run.log
                           + (if run.result.None? then [Error(DownloadFailed(Join(dir, plan.value.0)))] else []))
  {
    var plan := DownloadPlan(item, cfg.target);
    var fn := ChunkCalls(cfg, item);
    assert forall k, p :: fn(k, p).Ok? ==> fn(k, p).value.Some? && fn(k, p).value.value.done;
    if plan.Some? {
      PartialBranchUnreachable(fn, cfg.graceful, Join(dir, plan.value.0), item.name);
    }
  }

  /**
   * File names are not sanitised, so a file whose name is absolute is
   * created at that absolute path whatever the destination: the
   * `os.path.join` of line 209 drops `dest`. For example a plain file named
   * `/etc/x` is written to `/etc/x`, outside the backup at `/backup`.
   */
  lemma AbsoluteFileNameEscapes(cfg: Config, item: Item, dest: string, st: State)
    requires IsAbs(item.name) && DownloadPlan(item, cfg.target).Some?
    ensures var f := DownloadPlan(item, cfg.target).value.0;
      && item.name <= f
      && DownloadFile(cfg, item, dest, st).state.disk == st.disk + {Normalize(f)}
    ensures var r := DownloadFile(cfg, Item("x", "/etc/x", "text/plain"), "/backup", st);
      "/etc/x" in r.state.disk && !IsUnder("/backup", "/etc/x")
  {
    var f := DownloadPlan(item, cfg.target).value.0;
    assert IsAbs(f);
    AbsoluteComponentEscapes(dest, f);
    AbsoluteComponentEscapes("/backup", "/etc/x");
    assert !IsGoogleDoc("text/plain");
  }

  /** Entering a folder: one listing, then (if it succeeded) `makePath`'s single `mkdir`. */
  lemma FolderEntrySound(cfg: Config, node: Node, dir: string, st: State)
    ensures var l := Children(node, st);
      && Sound(st, l.state, {})
      && l.state.trace == st.trace + [List(ChildQuery(node.item.id))]
      && l.state.disk == st.disk
      && (l.outcome.Returned? ==>
            var p := MakePath(cfg, dir, node.item.name, l.state);
            && Sound(st, p.state, {})
            && (p.outcome.Returned? ==> p.state.trace == l.state.trace + [Mkdir(p.outcome.value)]))
  {
    var l := Children(node, st);
    var q := ChildQuery(node.item.id);
    assert l.state.trace == st.trace + [List(q)] && l.state.disk == st.disk;
    ListingThenDirectorySound(st, l.state, q, "");
    if l.outcome.Returned? {
      var p := MakePath(cfg, dir, node.item.name, l.state);
      MakePathAddsOneDirectory(cfg, dir, node.item.name, l.state);
      if p.outcome.Returned? {
        assert p.state.trace == st.trace + [List(q), Mkdir(p.outcome.value)];
        ListingThenDirectorySound(st, p.state, q, p.outcome.value);
      } else {
        assert p.state.trace == l.state.trace && p.state.disk == l.state.disk;
      }
    }
  }

  /** A listing, possibly followed by the creation of a new directory, keeps a walk sound. */
  lemma ListingThenDirectorySound(a: State, b: State, q: string, path: string)
    requires a.disk <= b.disk
    requires || b.trace == a.trace + [List(q)]
             || (b.trace == a.trace + [List(q), Mkdir(path)] && Normalize(path) !in a.disk && Normalize(path) in b.disk)
    ensures Sound(a, b, {})
  {
  }

  lemma {:induction false} WalkFilesSound(cfg: Config, sources: seq<Node>, i: nat, dir: string, st: State)
    requires i <= |sources|
    ensures Sound(st, WalkFiles(cfg, sources, i, dir, st).state, {dir})
    decreases |sources| - i
  {
    if i < |sources| {
      if IsFile(sources[i].item) {
        var d := DownloadFile(cfg, sources[i].item, dir, st);
        DownloadSound(cfg, sources[i].item, dir, st);
        if d.outcome.Returned? {
          WalkFilesSound(cfg, sources, i + 1, dir, d.state);
          SoundCompose(st, d.state, WalkFiles(cfg, sources, i + 1, dir, d.state).state, {dir}, {dir});
        }
      } else {
        WalkFilesSound(cfg, sources, i + 1, dir, st);
      }
    }
  }

  /** Entering one folder is sound: its listing, its single new directory, then a sound walk inside that directory. */
  lemma {:induction false} EnterFolderSound(cfg: Config, node: Node, dir: string, st: State)
    ensures Sound(st, EnterFolder(cfg, node, dir, st).state, {})
    decreases node.listing, 2, 0
  {
    var l := Children(node, st);
    FolderEntrySound(cfg, node, dir, st);
    if l.outcome.Returned? {
      var p := MakePath(cfg, dir, node.item.name, l.state);
      if p.outcome.Returned? {
        var sub := p.outcome.value;
        var w := Traverse(cfg, node.listing.nodes, sub, p.state);
        WalkSound(cfg, node.listing.nodes, sub, p.state);
        assert Mkdir(sub) in p.state.trace[|st.trace|..] by {
          assert p.state.trace[|st.trace|..][|p.state.trace| - 1 - |st.trace|] == Mkdir(sub);
        }
        SoundCompose(st, p.state, w.state, {}, {sub});
      }
    }
  }

  lemma {:induction false} WalkFoldersSound(cfg: Config, sources: seq<Node>, i: nat, dir: string, st: State)
    requires i <= |sources|
    ensures Sound(st, WalkFolders(cfg, sources, i, dir, st).state, {})
    decreases Listed(sources), 0, |sources| - i
  {
    if i < |sources| {
      if IsFolder(sources[i].item) {
        assert sources[i] in sources;
        var w := EnterFolder(cfg, sources[i], dir, st);
        EnterFolderSound(cfg, sources[i], dir, st);
        if w.outcome.Returned? {
          WalkFoldersSound(cfg, sources, i + 1, dir, w.state);
          SoundCompose(st, w.state, WalkFolders(cfg, sources, i + 1, dir, w.state).state, {}, {});
        }
      } else {
        WalkFoldersSound(cfg, sources, i + 1, dir, st);
      }
    }
  }

  /**
   * `traverseSource` never removes anything from disk; every directory it
   * creates was absent before, is created right after a listing (its
   * folder's), and is distinct from every other directory it creates; every
   * download is called with `dir`, or a directory it created earlier, as its
   * destination (the file itself lands at `Join(dest, name)`, which need not
   * lie inside it; see `AbsoluteFileNameEscapes`).
   */
  lemma {:induction false} WalkSound(cfg: Config, sources: seq<Node>, dir: string, st: State)
    ensures Sound(st, Traverse(cfg, sources, dir, st).state, {dir})
    decreases Listed(sources), 1, 0
  {
    var f := WalkFiles(cfg, sources, 0, dir, st);
    WalkFilesSound(cfg, sources, 0, dir, st);
    if f.outcome.Returned? {
      WalkFoldersSound(cfg, sources, 0, dir, f.state);
      SoundCompose(st, f.state, WalkFolders(cfg, sources, 0, dir, f.state).state, {dir}, {});
    }
  }

  // ----- Containment and the order of folders -----

  /**
   * Every directory created among `events` lies strictly inside `root`, and
   * every download's destination argument is `root` or a directory inside it
   * (the file is written to `Join(dest, name)`, which need not be).
   */
  ghost predicate Within(events: seq<Event>, root: string) {
    forall e :: e in events ==>
      (e.Mkdir? ==> StrictlyUnder(root, e.path)) && (e.Download? ==> e.dir == root || IsUnder(root, e.dir))
  }

  lemma PrefixTransitive<T>(a: seq<T>, b: seq<T>, c: seq<T>)
    requires a <= b && b <= c
    ensures a <= c
  {
    assert c[..|b|][..|a|] == c[..|a|];
  }

  lemma UnderTransitive(root: string, sub: string, p: string)
    requires IsUnder(root, sub) && IsUnder(sub, p)
    ensures IsUnder(root, p) && |p| >= |sub|
  {
    JoinSegmentStaysUnder(sub, "");
    PrefixTransitive(sub, Join(sub, ""), p);
    PrefixTransitive(Join(root, ""), sub, p);
  }

  lemma WithinWiden(events: seq<Event>, root: string, sub: string)
    requires Within(events, sub) && IsUnder(root, sub)
    ensures Within(events, root)
  {
    forall e | e in events
      ensures (e.Mkdir? ==> StrictlyUnder(root, e.path)) && (e.Download? ==> e.dir == root || IsUnder(root, e.dir))
    {
      if e.Mkdir? { UnderTransitive(root, sub, e.path); }
      if e.Download? && e.dir != sub { UnderTransitive(root, sub, e.dir); }
    }
  }

  lemma WithinCompose(a: seq<Event>, b: seq<Event>, c: seq<Event>, root: string)
    requires a <= b && b <= c
    requires Within(b[|a|..], root) && Within(c[|b|..], root)
    ensures Within(c[|a|..], root)
  {
    assert c[|a|..] == b[|a|..] + c[|b|..];
  }

  lemma {:induction false} WalkFilesWithin(cfg: Config, sources: seq<Node>, i: nat, dir: string, st: State)
    requires i <= |sources|
    ensures var r := WalkFiles(cfg, sources, i, dir, st);
      st.trace <= r.state.trace && st.disk <= r.state.disk && Within(r.state.trace[|st.trace|..], dir)
    decreases |sources| - i
  {
    if i < |sources| {
      if IsFile(sources[i].item) {
        var d := DownloadFile(cfg, sources[i].item, dir, st);
        assert d.state.trace[|st.trace|..] == [Download(sources[i].item.id, dir)];
        if d.outcome.Returned? {
          WalkFilesWithin(cfg, sources, i + 1, dir, d.state);
          WithinCompose(st.trace, d.state.trace, WalkFiles(cfg, sources, i + 1, dir, d.state).state.trace, dir);
        }
      } else {
        WalkFilesWithin(cfg, sources, i + 1, dir, st);
      }
    }
  }

  lemma {:induction false} EnterFolderWithin(cfg: Config, node: Node, dir: string, st: State)
    requires Exists(st.disk, dir)
    ensures var r := EnterFolder(cfg, node, dir, st);
      st.trace <= r.state.trace && st.disk <= r.state.disk && Within(r.state.trace[|st.trace|..], dir)
    decreases node.listing, 2, 0
  {
    var l := Children(node, st);
    assert l.state.trace[|st.trace|..] == [List(ChildQuery(node.item.id))];
    if l.outcome.Returned? {
      var p := MakePath(cfg, dir, node.item.name, l.state);
      MakePathAddsOneDirectory(cfg, dir, node.item.name, l.state);
      if p.outcome.Returned? {
        var sub := p.outcome.value;
        assert p.state.trace[|l.state.trace|..] == [Mkdir(sub)];
        WithinCompose(st.trace, l.state.trace, p.state.trace, dir);
        var w := Traverse(cfg, node.listing.nodes, sub, p.state);
        TraverseWithin(cfg, node.listing.nodes, sub, p.state);
        WithinWiden(w.state.trace[|p.state.trace|..], dir, sub);
        WithinCompose(st.trace, p.state.trace, w.state.trace, dir);
      } else {
        assert p.state.trace == l.state.trace;
      }
    }
  }

  lemma {:induction false} WalkFoldersWithin(cfg: Config, sources: seq<Node>, i: nat, dir: string, st: State)
    requires i <= |sources| && Exists(st.disk, dir)
    ensures var r := WalkFolders(cfg, sources, i, dir, st);
      st.trace <= r.state.trace && st.disk <= r.state.disk && Within(r.state.trace[|st.trace|..], dir)
    decreases Listed(sources), 0, |sources| - i
  {
    if i < |sources| {
      if IsFolder(sources[i].item) {
        assert sources[i] in sources;
        var w := EnterFolder(cfg, sources[i], dir, st);
        EnterFolderWithin(cfg, sources[i], dir, st);
        if w.outcome.Returned? {
          WalkFoldersWithin(cfg, sources, i + 1, dir, w.state);
          WithinCompose(st.trace, w.state.trace, WalkFolders(cfg, sources, i + 1, dir, w.state).state.trace, dir);
        }
      } else {
        WalkFoldersWithin(cfg, sources, i + 1, dir, st);
      }
    }
  }

  /**
   * A walk of an existing directory stays inside it: every directory it
   * creates lies strictly inside `dir` (after a separator, so `/backup2/x`
   * does not count as inside `/backup`), and every directory it downloads
   * into is `dir` or lies inside it. `traverseSource` is only called on a
   * directory that was just created.
   */
  lemma {:induction false} TraverseWithin(cfg: Config, sources: seq<Node>, dir: string, st: State)
    requires Exists(st.disk, dir)
    ensures var r := Traverse(cfg, sources, dir, st);
      st.trace <= r.state.trace && st.disk <= r.state.disk && Within(r.state.trace[|st.trace|..], dir)
    decreases Listed(sources), 1, 0
  {
    var f := WalkFiles(cfg, sources, 0, dir, st);
    WalkFilesWithin(cfg, sources, 0, dir, st);
    if f.outcome.Returned? {
      WalkFoldersWithin(cfg, sources, 0, dir, f.state);
      WithinCompose(st.trace, f.state.trace, WalkFolders(cfg, sources, 0, dir, f.state).state.trace, dir);
    }
  }

  /**
   * Entering a folder from the existing directory `dir`: the listing of its
   * children comes first; if it fails, or `makePath` raises, nothing else
   * happens. Otherwise the next event creates the folder's directory, named
   * after the folder and strictly inside `dir`, and every later event is the
   * walk of the children inside that directory.
   */
  lemma EnterFolderOrder(cfg: Config, node: Node, dir: string, st: State)
    requires Exists(st.disk, dir)
    ensures var r := EnterFolder(cfg, node, dir, st);
      && st.trace + [List(ChildQuery(node.item.id))] <= r.state.trace
      && st.disk <= r.state.disk
    ensures var r := EnterFolder(cfg, node, dir, st);
      var l := Children(node, st);
      var p := MakePath(cfg, dir, node.item.name, l.state);
      && (node.listing.ListingFails? ==>
            r.outcome == Raised(Abort) && r.state.trace == st.trace + [List(ChildQuery(node.item.id))])
      && (node.listing.Listed? && p.outcome.Raised? ==>
            r.outcome == Raised(p.outcome.exc) && r.state.trace == st.trace + [List(ChildQuery(node.item.id))])
      && (node.listing.Listed? && p.outcome.Returned? ==>
            var sub := p.outcome.value;
            && Candidate(dir, node.item.name) <= sub
            && StrictlyUnder(dir, sub)
            && st.trace + [List(ChildQuery(node.item.id)), Mkdir(sub)] <= r.state.trace
            && Within(r.state.trace[|st.trace| + 2..], sub)
            && r == Traverse(cfg, node.listing.nodes, sub, p.state))
  {
    var l := Children(node, st);
    var q := ChildQuery(node.item.id);
    assert l.state.trace == st.trace + [List(q)] && l.state.disk == st.disk;
    if l.outcome.Returned? {
      var p := MakePath(cfg, dir, node.item.name, l.state);
      if p.outcome.Returned? {
        EnterFolderDescends(cfg, node, dir, st);
      } else {
        MakePathAddsOneDirectory(cfg, dir, node.item.name, l.state);
        assert EnterFolder(cfg, node, dir, st) == Step(Raised(p.outcome.exc), p.state);
        assert p.state.trace == l.state.trace;
      }
    }
  }

  /** The case of `EnterFolderOrder` where the folder's directory is created. */
  lemma EnterFolderDescends(cfg: Config, node: Node, dir: string, st: State)
    requires Exists(st.disk, dir)
    requires node.listing.Listed?
    requires MakePath(cfg, dir, node.item.name, Children(node, st).state).outcome.Returned?
    ensures var r := EnterFolder(cfg, node, dir, st);
      var p := MakePath(cfg, dir, node.item.name, Children(node, st).state);
      var sub := p.outcome.value;
      && st.disk <= r.state.disk
      && Candidate(dir, node.item.name) <= sub
      && StrictlyUnder(dir, sub)
      && st.trace + [List(ChildQuery(node.item.id))] <= r.state.trace
      && st.trace + [List(ChildQuery(node.item.id)), Mkdir(sub)] <= r.state.trace
      && Within(r.state.trace[|st.trace| + 2..], sub)
      && r == Traverse(cfg, node.listing.nodes, sub, p.state)
  {
    var l := Children(node, st);
    var q := ChildQuery(node.item.id);
    var p := MakePath(cfg, dir, node.item.name, l.state);
    MakePathAddsOneDirectory(cfg, dir, node.item.name, l.state);
    var sub := p.outcome.value;
    var w := Traverse(cfg, node.listing.nodes, sub, p.state);
    assert EnterFolder(cfg, node, dir, st) == w;
    assert p.state.trace == st.trace + [List(q), Mkdir(sub)];
    TraverseWithin(cfg, node.listing.nodes, sub, p.state);
    DescendInto(st.trace, p.state.trace, w.state.trace, q, sub);
  }

  lemma DescendInto(t0: seq<Event>, t1: seq<Event>, t2: seq<Event>, q: string, sub: string)
    requires t1 == t0 + [List(q), Mkdir(sub)] && t1 <= t2 && Within(t2[|t1|..], sub)
    ensures t0 + [List(q)] <= t2 && t1 <= t2 && Within(t2[|t0| + 2..], sub)
  {
    assert t2[|t0| + 2..] == t2[|t1|..];
    assert (t0 + [List(q)]) == t1[..|t0| + 1];
  }

  /** One step of the second comprehension at a folder item whose entry gave `w`. */
  lemma WalkFoldersEnters(cfg: Config, sources: seq<Node>, i: nat, dir: string, st: State, w: Step<()>)
    requires i < |sources| && IsFolder(sources[i].item)
    requires w == EnterFolder(cfg, sources[i], dir, st)
    ensures WalkFolders(cfg, sources, i, dir, st)
         == if w.outcome.Raised? then w else WalkFolders(cfg, sources, i + 1, dir, w.state)
  {
  }

  /** One step of the second comprehension at a file item: it is passed over. */
  lemma WalkFoldersSkips(cfg: Config, sources: seq<Node>, i: nat, dir: string, st: State)
    requires i < |sources| && !IsFolder(sources[i].item)
    ensures WalkFolders(cfg, sources, i, dir, st) == WalkFolders(cfg, sources, i + 1, dir, st)
  {
  }

  /** The folder items of `sources[i..]`, in list order. */
  function FoldersFrom(sources: seq<Node>, i: nat): seq<Node>
    requires i <= |sources|
    decreases |sources| - i
  {
    if i == |sources| then []
    else if IsFolder(sources[i].item) then [sources[i]] + FoldersFrom(sources, i + 1)
    else FoldersFrom(sources, i + 1)
  }

  /**
   * `ev` is what entering `folders` one after the other from `dir` adds:
   * the listing of the first folder's children; then, unless that ended the
   * walk, the creation of its directory strictly inside `dir`, the events of
   * its subtree, all inside that directory, and only then the same for the
   * remaining folders. With `all`, every folder was listed and given its
   * directory; without it, the events stop early.
   */
  ghost predicate EnteredInOrder(ev: seq<Event>, folders: seq<Node>, dir: string, all: bool)
    decreases |folders|
  {
    if ev == [] then folders == [] || !all
    else
      && folders != []
      && ev[0] == List(ChildQuery(folders[0].item.id))
      && (|ev| == 1 ==> !all)
      && (|ev| > 1 ==>
            && ev[1].Mkdir? && StrictlyUnder(dir, ev[1].path)
            && Candidate(dir, folders[0].item.name) <= ev[1].path
            && exists n :: 2 <= n <= |ev| && Within(ev[2..n], ev[1].path)
                           && EnteredInOrder(ev[n..], folders[1..], dir, all))
  }

  /**
   * The second comprehension of `traverseSource` enters the folder items in
   * list order, depth first: each folder's listing, its directory and its
   * whole subtree inside that directory come before the next folder's
   * listing. When it returns, every folder was entered.
   */
  lemma {:induction false} FoldersInOrder(cfg: Config, sources: seq<Node>, i: nat, dir: string, st: State)
    requires i <= |sources| && Exists(st.disk, dir)
    ensures var r := WalkFolders(cfg, sources, i, dir, st);
      && st.trace <= r.state.trace
      && EnteredInOrder(r.state.trace[|st.trace|..], FoldersFrom(sources, i), dir, r.outcome.Returned?)
    decreases |sources| - i
  {
    var r := WalkFolders(cfg, sources, i, dir, st);
    if i < |sources| {
      if IsFolder(sources[i].item) {
        var node := sources[i];
        var F := FoldersFrom(sources, i);
        assert F[0] == node && F[1..] == FoldersFrom(sources, i + 1);
        var w := EnterFolder(cfg, node, dir, st);
        EnterFolderHead(cfg, node, dir, st);
        var head := w.state.trace[|st.trace|..];
        if |head| == 1 {
          assert r == w;
          EnteredOnlyListing(head, F, dir);
        } else if w.outcome.Returned? {
          assert r == WalkFolders(cfg, sources, i + 1, dir, w.state);
          FoldersInOrder(cfg, sources, i + 1, dir, w.state);
          EnteredThenRest(st.trace, w.state.trace, r.state.trace, F, dir, r.outcome.Returned?);
        } else {
          assert r == w;
          EnteredThenRest(st.trace, w.state.trace, w.state.trace, F, dir, false);
        }
      } else {
        assert r == WalkFolders(cfg, sources, i + 1, dir, st);
        assert FoldersFrom(sources, i) == FoldersFrom(sources, i + 1);
        FoldersInOrder(cfg, sources, i + 1, dir, st);
      }
    }
  }

  lemma EnteredOnlyListing(ev: seq<Event>, folders: seq<Node>, dir: string)
    requires folders != [] && ev == [List(ChildQuery(folders[0].item.id))]
    ensures EnteredInOrder(ev, folders, dir, false)
  {
  }

  /** What entering one folder adds, in the form `EnteredInOrder` uses. */
  ghost predicate EnteredOne(head: seq<Event>, node: Node, dir: string) {
    && |head| >= 2
    && head[0] == List(ChildQuery(node.item.id))
    && head[1].Mkdir? && StrictlyUnder(dir, head[1].path)
    && Candidate(dir, node.item.name) <= head[1].path
    && Within(head[2..], head[1].path)
  }

  lemma EnterFolderHead(cfg: Config, node: Node, dir: string, st: State)
    requires Exists(st.disk, dir)
    ensures var r := EnterFolder(cfg, node, dir, st);
      && st.trace <= r.state.trace && st.disk <= r.state.disk
      && ((r.state.trace[|st.trace|..] == [List(ChildQuery(node.item.id))] && r.outcome.Raised?)
          || EnteredOne(r.state.trace[|st.trace|..], node, dir))
  {
    var r := EnterFolder(cfg, node, dir, st);
    EnterFolderOrder(cfg, node, dir, st);
    var l := Children(node, st);
    var p := MakePath(cfg, dir, node.item.name, l.state);
    if node.listing.Listed? && p.outcome.Returned? {
      var head := r.state.trace[|st.trace|..];
      assert head[2..] == r.state.trace[|st.trace| + 2..];
      assert head[0] == List(ChildQuery(node.item.id)) && head[1] == Mkdir(p.outcome.value);
    }
  }

  /** `EnteredCons` on traces that grow from `t0` to `t1` to `t2`. */
  lemma EnteredThenRest(t0: seq<Event>, t1: seq<Event>, t2: seq<Event>, folders: seq<Node>, dir: string, all: bool)
    requires t0 <= t1 <= t2 && folders != []
    requires EnteredOne(t1[|t0|..], folders[0], dir)
    requires EnteredInOrder(t2[|t1|..], folders[1..], dir, all)
    ensures EnteredInOrder(t2[|t0|..], folders, dir, all)
  {
    SliceAcrossPrefix(t0, t1, t2);
    EnteredCons(t1[|t0|..], t2[|t1|..], folders, dir, all);
  }

  lemma SliceAcrossPrefix<T>(t0: seq<T>, t1: seq<T>, t2: seq<T>)
    requires t0 <= t1 <= t2
    ensures t2[|t0|..] == t1[|t0|..] + t2[|t1|..]
  {
    assert t1 == t2[..|t1|];
  }

  lemma EnteredCons(head: seq<Event>, rest: seq<Event>, folders: seq<Node>, dir: string, all: bool)
    requires folders != [] && EnteredOne(head, folders[0], dir)
    requires EnteredInOrder(rest, folders[1..], dir, all)
    ensures EnteredInOrder(head + rest, folders, dir, all)
  {
    var ev := head + rest;
    assert ev[2..|head|] == head[2..];
    assert ev[|head|..] == rest;
  }



  // ----- Files before folders -----

  /** The file items of `sources[i..]`, in list order. */
  function FilesFrom(sources: seq<Node>, i: nat): seq<Item>
    requires i <= |sources|
    decreases |sources| - i
  {
    if i == |sources| then []
    else if IsFile(sources[i].item) then [sources[i].item] + FilesFrom(sources, i + 1)
    else FilesFrom(sources, i + 1)
  }

  function DownloadEvents(files: seq<Item>, dir: string): seq<Event> {
    if files == [] then [] else [Download(files[0].id, dir)] + DownloadEvents(files[1..], dir)
  }

  lemma PrefixAfterEvent(before: seq<Event>, ev: Event, after: seq<Event>, rest: seq<Event>)
    requires before + [ev] <= after && after[|before| + 1..] <= rest
    ensures before <= after && after[|before|..] <= [ev] + rest
    ensures after[|before| + 1..] == rest ==> after[|before|..] == [ev] + rest
  {
    assert after[|before|..] == [ev] + after[|before| + 1..];
  }

  /** The events the file phase of a walk adds are a prefix of one download per file item; all of them when it returns. */
  lemma {:induction false} WalkFilesTrace(cfg: Config, sources: seq<Node>, i: nat, dir: string, st: State)
    requires i <= |sources|
    ensures var r := WalkFiles(cfg, sources, i, dir, st);
      var D := DownloadEvents(FilesFrom(sources, i), dir);
      && st.trace <= r.state.trace
      && r.state.trace[|st.trace|..] <= D
      && (r.outcome.Returned? ==> r.state.trace[|st.trace|..] == D)
      && st.disk <= r.state.disk
    decreases |sources| - i
  {
    var r := WalkFiles(cfg, sources, i, dir, st);
    if i < |sources| {
      if IsFile(sources[i].item) {
        var d := DownloadFile(cfg, sources[i].item, dir, st);
        var ev := Download(sources[i].item.id, dir);
        DownloadTrace(cfg, sources[i].item, dir, st);
        var G := FilesFrom(sources, i + 1);
        assert DownloadEvents(FilesFrom(sources, i), dir) == [ev] + DownloadEvents(G, dir) by {
          assert FilesFrom(sources, i)[1..] == G;
        }
        if d.outcome.Returned? {
          assert r == WalkFiles(cfg, sources, i + 1, dir, d.state);
          WalkFilesTrace(cfg, sources, i + 1, dir, d.state);
          PrefixAfterEvent(st.trace, ev, r.state.trace, DownloadEvents(G, dir));
        } else {
          assert r == d;
          assert d.state.trace[|st.trace|..] == [ev];
        }
      } else {
        assert r == WalkFiles(cfg, sources, i + 1, dir, st);
        assert FilesFrom(sources, i) == FilesFrom(sources, i + 1);
        WalkFilesTrace(cfg, sources, i + 1, dir, st);
      }
    }
  }

  /** After the files, the folder phase never downloads with `dir` as destination: every download there has a directory it created as destination. */
  lemma FolderPhaseAvoidsDir(cfg: Config, sources: seq<Node>, dir: string, a: State)
    requires Exists(a.disk, dir)
    ensures var w := WalkFolders(cfg, sources, 0, dir, a);
      && a.trace <= w.state.trace
      && forall i :: |a.trace| <= i < |w.state.trace| && w.state.trace[i].Download? ==> w.state.trace[i].dir != dir
  {
    var w := WalkFolders(cfg, sources, 0, dir, a);
    WalkFoldersSound(cfg, sources, 0, dir, a);
    forall i | |a.trace| <= i < |w.state.trace| && w.state.trace[i].Download?
      ensures w.state.trace[i].dir != dir
    {
      var d := w.state.trace[i].dir;
      var E := w.state.trace[|a.trace|..i];
      assert Mkdir(d) in E;
      var j :| 0 <= j < |E| && E[j] == Mkdir(d);
      assert w.state.trace[|a.trace| + j] == Mkdir(d);
    }
  }

  /**
   * At each level, the files are downloaded into `dir` first, in list
   * order. The events of the walk are either a prefix of one download per
   * file item (a strict prefix only when a download raised and ended the
   * walk), or all of those downloads followed by events none of which
   * downloads into `dir` itself.
   */
  lemma FilesBeforeFolders(cfg: Config, sources: seq<Node>, dir: string, st: State)
    requires Exists(st.disk, dir)
    ensures st.trace <= Traverse(cfg, sources, dir, st).state.trace
    ensures var r := Traverse(cfg, sources, dir, st);
      var E := r.state.trace[|st.trace|..];
      var D := DownloadEvents(FilesFrom(sources, 0), dir);
      || (E <= D && (|E| < |D| ==> r.outcome.Raised?))
      || (D <= E && forall i :: |D| <= i < |E| && E[i].Download? ==> E[i].dir != dir)
  {
    var f := WalkFiles(cfg, sources, 0, dir, st);
    WalkFilesTrace(cfg, sources, 0, dir, st);
    if f.outcome.Returned? {
      var r := WalkFolders(cfg, sources, 0, dir, f.state);
      var D := DownloadEvents(FilesFrom(sources, 0), dir);
      FolderPhaseAvoidsDir(cfg, sources, dir, f.state);
      assert |st.trace| <= |f.state.trace| <= |r.state.trace|;
      var E := r.state.trace[|st.trace|..];
      assert |f.state.trace| == |st.trace| + |D|;
      assert E[..|D|] == f.state.trace[|st.trace|..];
      forall i | |D| <= i < |E| && E[i].Download? ensures E[i].dir != dir {
        assert E[i] == r.state.trace[|st.trace| + i];
      }
    }
  }

  /**
   * The whole order of `traverseSource` on an existing directory: first one
   * download per file item in list order (a run that raised may stop
   * anywhere in it), then the folder items entered in list order, depth
   * first, each subtree inside the directory made for its folder.
   */
  lemma TraverseOrder(cfg: Config, sources: seq<Node>, dir: string, st: State)
    requires Exists(st.disk, dir)
    ensures st.trace <= Traverse(cfg, sources, dir, st).state.trace
    ensures var r := Traverse(cfg, sources, dir, st);
      var E := r.state.trace[|st.trace|..];
      var D := DownloadEvents(FilesFrom(sources, 0), dir);
      || (r.outcome.Raised? && E <= D)
      || (D <= E && EnteredInOrder(E[|D|..], FoldersFrom(sources, 0), dir, r.outcome.Returned?))
  {
    var f := WalkFiles(cfg, sources, 0, dir, st);
    WalkFilesTrace(cfg, sources, 0, dir, st);
    if f.outcome.Returned? {
      var r := WalkFolders(cfg, sources, 0, dir, f.state);
      var D := DownloadEvents(FilesFrom(sources, 0), dir);
      assert Traverse(cfg, sources, dir, st) == r;
      FoldersInOrder(cfg, sources, 0, dir, f.state);
      SliceAcrossPrefix(st.trace, f.state.trace, r.state.trace);
    } else {
      assert Traverse(cfg, sources, dir, st) == f;
    }
  }

  // ----- The download as written -----

  /**
   * As written, `download` raises in either mode: the table's `KeyError`, or
   * after the wrapper's five `NameError`s `abortBackup` (graceful) or the
   * unpack of `None` (not graceful). Except for the `KeyError`, the
   * destination file has been created (empty) first.
   */
  lemma AsWrittenDownloadFileRaises(cfg: Config, item: Item, dir: string, st: State)
    requires !cfg.barDefined
    ensures var r := DownloadFile(cfg, item, dir, st);
      && r.outcome == Raised(if DownloadPlan(item, cfg.target).None? then KeyError(item.mimeType)
                             else if cfg.graceful then Abort else UnpackNone)
      && (DownloadPlan(item, cfg.target).Some? ==>
            Normalize(Join(dir, DownloadPlan(item, cfg.target).value.0)) in r.state.disk)
  {
    AsWrittenDownloadAlwaysRaises(cfg.graceful, "", item.name);
  }

  lemma {:induction false} SkipNonFiles(cfg: Config, sources: seq<Node>, j: nat, i: nat, dir: string, st: State)
    requires j <= i < |sources|
    requires forall m :: j <= m < i ==> !IsFile(sources[m].item)
    ensures WalkFiles(cfg, sources, j, dir, st) == WalkFiles(cfg, sources, i, dir, st)
    decreases i - j
  {
    if j < i {
      SkipNonFiles(cfg, sources, j + 1, i, dir, st);
    }
  }

  /**
   * As written, the first file item of the top level ends the whole run:
   * its download raises, nothing else has happened on the remote side, and
   * no folder of that level is entered.
   */
  lemma AsWrittenFirstFileEndsWalk(cfg: Config, sources: seq<Node>, i: nat, dir: string, st: State)
    requires !cfg.barDefined
    requires i < |sources| && IsFile(sources[i].item)
    requires forall m :: 0 <= m < i ==> !IsFile(sources[m].item)
    ensures var r := Traverse(cfg, sources, dir, st);
      && r.outcome.Raised?
      && r.state.trace == st.trace + [Download(sources[i].item.id, dir)]
  {
    SkipNonFiles(cfg, sources, 0, i, dir, st);
    AsWrittenDownloadFileRaises(cfg, sources[i].item, dir, st);
  }

  /** No file item anywhere in the part of the tree a walk can reach. */
  ghost predicate NoFiles(sources: seq<Node>)
    decreases Listed(sources)
  {
    forall j :: 0 <= j < |sources| ==>
      IsFolder(sources[j].item)
      && (sources[j].listing.Listed? ==> NoFiles(sources[j].listing.nodes))
  }

  lemma {:induction false} AsWrittenFilesPhase(cfg: Config, sources: seq<Node>, i: nat, dir: string, st: State)
    requires !cfg.barDefined
    requires i <= |sources|
    ensures WalkFiles(cfg, sources, i, dir, st).outcome.Returned? ==>
      forall m :: i <= m < |sources| ==> IsFolder(sources[m].item)
    decreases |sources| - i
  {
    if i < |sources| {
      if IsFile(sources[i].item) {
        AsWrittenDownloadFileRaises(cfg, sources[i].item, dir, st);
      } else {
        AsWrittenFilesPhase(cfg, sources, i + 1, dir, st);
      }
    }
  }

  lemma {:induction false} AsWrittenEnterFolder(cfg: Config, node: Node, dir: string, st: State)
    requires !cfg.barDefined
    ensures EnterFolder(cfg, node, dir, st).outcome.Returned? ==>
      node.listing.Listed? && NoFiles(node.listing.nodes)
    decreases node.listing, 2, 0
  {
    var l := Children(node, st);
    if l.outcome.Returned? {
      var p := MakePath(cfg, dir, node.item.name, l.state);
      if p.outcome.Returned? {
        AsWrittenCompletesOnlyWithoutFiles(cfg, node.listing.nodes, p.outcome.value, p.state);
      }
    }
  }

  lemma {:induction false} AsWrittenFoldersPhase(cfg: Config, sources: seq<Node>, i: nat, dir: string, st: State)
    requires !cfg.barDefined
    requires i <= |sources|
    ensures WalkFolders(cfg, sources, i, dir, st).outcome.Returned? ==>
      forall m :: i <= m < |sources| && IsFolder(sources[m].item) ==>
        sources[m].listing.Listed? && NoFiles(sources[m].listing.nodes)
    decreases Listed(sources), 0, |sources| - i
  {
    var r := WalkFolders(cfg, sources, i, dir, st);
    if i < |sources| && r.outcome.Returned? {
      var next := st;
      if IsFolder(sources[i].item) {
        assert sources[i] in sources;
        var w := EnterFolder(cfg, sources[i], dir, st);
        AsWrittenEnterFolder(cfg, sources[i], dir, st);
        assert w.outcome.Returned?;
        next := w.state;
      }
      assert r == WalkFolders(cfg, sources, i + 1, dir, next);
      AsWrittenFoldersPhase(cfg, sources, i + 1, dir, next);
    }
  }

  /**
   * As written, a run of `traverseSource` completes only when the part of
   * the remote tree it reaches holds no file at all: the first file raises.
   */
  lemma {:induction false} AsWrittenCompletesOnlyWithoutFiles(cfg: Config, sources: seq<Node>, dir: string, st: State)
    requires !cfg.barDefined
    ensures Traverse(cfg, sources, dir, st).outcome.Returned? ==> NoFiles(sources)
    decreases Listed(sources), 1, 0
  {
    var f := WalkFiles(cfg, sources, 0, dir, st);
    AsWrittenFilesPhase(cfg, sources, 0, dir, st);
    if f.outcome.Returned? {
      AsWrittenFoldersPhase(cfg, sources, 0, dir, f.state);
    }
  }

  // ----- The run as a whole -----

  /**
   * `startBackup` checks the source before anything else (no remote call
   * without one), lists the source by name before it creates the
   * destination, creates nothing when the destination is refused, and
   * otherwise creates the destination before the walk's first event.
   */
  lemma BackupOrder(cfg: Config, source: Option<string>, rootListing: Listing, dest: string, st: State)
    ensures var r := Backup(cfg, source, rootListing, dest, st);
      && (source.None? || source.value == "" ==>
            r.outcome == Raised(Abort) && r.state.trace == st.trace && r.state.disk == st.disk)
      && (source.Some? && source.value != "" && rootListing.Listed? && (!IsAbs(dest) || Exists(st.disk, dest)) ==>
            r.outcome == Raised(Abort) && r.state.disk == st.disk
            && r.state.trace == st.trace + [List(NameQuery(source.value))])
      && (source.Some? && source.value != "" && rootListing.Listed? && IsAbs(dest) && !Exists(st.disk, dest) ==>
            st.trace + [List(NameQuery(source.value)), Mkdir(dest)] <= r.state.trace
            && Normalize(dest) in r.state.disk)
  {
    var r := Backup(cfg, source, rootListing, dest, st);
    if source.Some? && source.value != "" && rootListing.Listed? {
      var v := ValidateSource(source, rootListing, st);
      var d := EnsureDestination(dest, v.state.(log := v.state.log + [Info(SourcesFound)]));
      if d.outcome.Returned? {
        var d' := d.state.(log := d.state.log + [Info(DestinationCreated(dest))]);
        WalkSound(cfg, v.outcome.value, dest, d');
        assert d'.trace == st.trace + [List(NameQuery(source.value)), Mkdir(dest)];
      }
    }
  }
}
