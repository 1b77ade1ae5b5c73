/** Rebuilding the session list through the cache of parsed files, keyed by modification
    time. */
module SessionCache {
  import opened Python
  import opened Sorting

  const BATCH := 50

  type Path = string
  type Data = string

  /** A list entry; `path` and `size` are taken out of it before it is shown. */
  datatype Raw = Raw(slug: string, date: string, path: Path, details: string)
  datatype Session = Session(slug: string, date: string, details: string)

  /** What lies outside the cache: the outcome of parsing a file as it was at a modification
      time (None for an exception), the entry built from an outcome, and the date and slug in
      the file name. A path's modification time determines its content. */
  datatype Site = Site(
    parse: (Path, int) -> Option<Data>, details: (Path, Option<Data>) -> string,
    date: Path -> string, slug: Path -> string)

  /** The live files with their modification times. */
  type Disk = map<Path, int>

  datatype Cached = Cached(mtime: int, data: Data)
  type Cache = map<Path, Cached>

  // ---------- Specification ----------

  function EntryOf(site: Site, path: Path, outcome: Option<Data>): Raw {
    Raw(site.slug(path), site.date(path), path, site.details(path, outcome))
  }

  predicate NewerFirst(a: Raw, b: Raw) {
    StringLe(b.date, a.date)
  }

  function SlugMap(sorted: seq<Raw>): map<string, Path> {
    if sorted == [] then map[]
    else SlugMap(sorted[..|sorted| - 1])[sorted[|sorted| - 1].slug := sorted[|sorted| - 1].path]
  }

  function Shown(sorted: seq<Raw>): (r: seq<Session>)
    ensures |r| == |sorted|
  {
    seq(|sorted|, i requires 0 <= i < |sorted| => Session(sorted[i].slug, sorted[i].date, sorted[i].details))
  }

  datatype Snapshot = Snapshot(sessions: seq<Session>, paths: map<string, Path>)

  function SnapshotOf(raw: seq<Raw>): Snapshot {
    var sorted := Sort(NewerFirst, raw);
    Snapshot(Shown(sorted), SlugMap(sorted))
  }

  /** Newest file name first. */
  function ByDate(site: Site): (Path, Path) -> bool {
    (a, b) => StringLe(site.date(b), site.date(a))
  }

  /** The files in the order they are processed. */
  function Ordered(site: Site, listing: seq<Path>): seq<Path> {
    Sort(ByDate(site), listing)
  }

  /** What the list is without any cache: every file parsed as it is now. */
  function Parsed(site: Site, disk: Disk, files: seq<Path>): (raw: seq<Raw>)
    requires forall f | f in files :: f in disk
    ensures |raw| == |files|
    ensures forall i | 0 <= i < |files| :: raw[i] == EntryOf(site, files[i], site.parse(files[i], disk[files[i]]))
  {
    seq(|files|, i requires 0 <= i < |files| => EntryOf(site, files[i], site.parse(files[i], disk[files[i]])))
  }

  function Least(x: nat, y: nat): nat {
    if x < y then x else y
  }

  /** One snapshot a batch, each of all the files so far. */
  function Yields(raw: seq<Raw>, from: nat): seq<Snapshot>
    decreases |raw| - from
  {
    if from >= |raw| then []
    else [SnapshotOf(raw[..Least(from + BATCH, |raw|)])] + Yields(raw, from + BATCH)
  }

  function Uncached(site: Site, disk: Disk, listing: seq<Path>): seq<Snapshot>
    requires forall f | f in listing :: f in disk
  {
    SortMembers(ByDate(site), listing);
    Yields(Parsed(site, disk, Ordered(site, listing)), 0)
  }

  /** One file through the cache: a matching modification time skips the parse; a failed parse
      is not remembered. */
  function ParseOne(site: Site, cache: Cache, path: Path, mtime: int): (Cache, Option<Data>) {
    if path in cache && cache[path].mtime == mtime then (cache, Some(cache[path].data))
    else match site.parse(path, mtime)
      case None => (cache, None)
      case Some(data) => (cache[path := Cached(mtime, data)], Some(data))
  }

  function ParseAll(site: Site, cache: Cache, disk: Disk, files: seq<Path>): Cache
    requires forall f | f in files :: f in disk
  {
    if files == [] then cache
    else
      var n := |files| - 1;
      ParseOne(site, ParseAll(site, cache, disk, files[..n]), files[n], disk[files[n]]).0
  }

  /** The entries of the files, each parsed or taken from the cache the earlier ones left. */
  function ThroughCache(site: Site, cache: Cache, disk: Disk, files: seq<Path>): seq<Raw>
    requires forall f | f in files :: f in disk
  {
    if files == [] then []
    else
      var n := |files| - 1;
      var outcome := ParseOne(site, ParseAll(site, cache, disk, files[..n]), files[n], disk[files[n]]).1;
      ThroughCache(site, cache, disk, files[..n]) + [EntryOf(site, files[n], outcome)]
  }

  /** Only live files stay in the saved cache. */
  function Pruned(cache: Cache, files: seq<Path>): Cache {
    map p | p in cache && p in files :: cache[p]
  }

  // ---------- Properties ----------

  /** Every remembered result is what parsing the file at that time gives. */
  ghost predicate Sound(site: Site, cache: Cache) {
    forall p | p in cache :: site.parse(p, cache[p].mtime) == Some(cache[p].data)
  }

  /** Through a sound cache, one file comes out as if parsed, and the cache stays sound. */
  lemma ParseOneSound(site: Site, cache: Cache, path: Path, mtime: int)
    requires Sound(site, cache)
    ensures var (cache', outcome) := ParseOne(site, cache, path, mtime);
            Sound(site, cache') && outcome == site.parse(path, mtime)
  {
  }

  lemma {:induction false} ParseAllSound(site: Site, cache: Cache, disk: Disk, files: seq<Path>)
    requires Sound(site, cache) && forall f | f in files :: f in disk
    ensures Sound(site, ParseAll(site, cache, disk, files))
  {
    if files != [] {
      var n := |files| - 1;
      ParseAllSound(site, cache, disk, files[..n]);
      ParseOneSound(site, ParseAll(site, cache, disk, files[..n]), files[n], disk[files[n]]);
    }
  }

  /** A sound cache is invisible: the entries are those of parsing every file. */
  lemma {:induction false} ThroughSoundCache(site: Site, cache: Cache, disk: Disk, files: seq<Path>)
    requires Sound(site, cache) && forall f | f in files :: f in disk
    ensures ThroughCache(site, cache, disk, files) == Parsed(site, disk, files)
  {
    if files != [] {
      var n := |files| - 1;
      ThroughSoundCache(site, cache, disk, files[..n]);
      ParseAllSound(site, cache, disk, files[..n]);
      ParseOneSound(site, ParseAll(site, cache, disk, files[..n]), files[n], disk[files[n]]);
      assert Parsed(site, disk, files) == Parsed(site, disk, files[..n])
        + [EntryOf(site, files[n], site.parse(files[n], disk[files[n]]))];
    }
  }

  /** Parses of different files, run concurrently in a batch, can finish in any order. */
  lemma ParsesCommute(site: Site, cache: Cache, p: Path, q: Path, mp: int, mq: int)
    requires p != q
    ensures var (first, fp) := ParseOne(site, cache, p, mp);
            var (second, sq) := ParseOne(site, cache, q, mq);
            ParseOne(site, first, q, mq) == (ParseOne(site, second, p, mp).0, sq)
            && ParseOne(site, second, p, mp).1 == fp
  {
    var first, second := ParseOne(site, cache, p, mp).0, ParseOne(site, cache, q, mq).0;
    assert ParseOne(site, first, q, mq).0 == ParseOne(site, second, p, mp).0;
  }

  function Lookup(cache: Cache, p: Path): Option<Cached> {
    if p in cache then Some(cache[p]) else None
  }

  /** What one parse leaves of a file depends on what was cached of that file only. */
  function Refreshed(site: Site, cached: Option<Cached>, path: Path, mtime: int): Option<Cached> {
    if cached.Some? && cached.value.mtime == mtime then cached
    else match site.parse(path, mtime)
      case None => cached
      case Some(data) => Some(Cached(mtime, data))
  }

  lemma {:induction false} ParseAllLookup(site: Site, cache: Cache, disk: Disk, files: seq<Path>, p: Path)
    requires forall f | f in files :: f in disk
    ensures Lookup(ParseAll(site, cache, disk, files), p)
            == if p in files then Refreshed(site, Lookup(cache, p), p, disk[p]) else Lookup(cache, p)
  {
    if files != [] {
      hide ParseOne, Lookup, Refreshed;
      var n := |files| - 1;
      assert files == files[..n] + [files[n]];
      ParseAllLookup(site, cache, disk, files[..n], p);
      ParseOneLookup(site, ParseAll(site, cache, disk, files[..n]), files[n], disk[files[n]], p);
      RefreshedTwice(site, Lookup(cache, p), p, if p in disk then disk[p] else 0);
    }
  }

  lemma ParseOneLookup(site: Site, cache: Cache, path: Path, mtime: int, p: Path)
    ensures Lookup(ParseOne(site, cache, path, mtime).0, p)
            == if p == path then Refreshed(site, Lookup(cache, p), p, mtime) else Lookup(cache, p)
  {
  }

  lemma RefreshedTwice(site: Site, cached: Option<Cached>, path: Path, mtime: int)
    ensures Refreshed(site, Refreshed(site, cached, path, mtime), path, mtime) == Refreshed(site, cached, path, mtime)
  {
  }

  /** In whatever order the files are parsed, and some of them even twice, the cache ends up the
      same. */
  lemma AnyOrder(site: Site, cache: Cache, disk: Disk, files: seq<Path>, others: seq<Path>)
    requires (forall f | f in files :: f in disk) && forall f :: f in files <==> f in others
    ensures ParseAll(site, cache, disk, files) == ParseAll(site, cache, disk, others)
  {
    var a, b := ParseAll(site, cache, disk, files), ParseAll(site, cache, disk, others);
    forall p ensures Lookup(a, p) == Lookup(b, p) {
      ParseAllLookup(site, cache, disk, files, p);
      ParseAllLookup(site, cache, disk, others, p);
    }
    forall p ensures (p in a <==> p in b) && (p in a ==> a[p] == b[p]) {
      assert Lookup(a, p) == Lookup(b, p);
    }
  }

  /** What a file comes out as does not depend on which files were parsed before it, not even
      when it was among them. */
  lemma OutcomeAnyOrder(site: Site, cache: Cache, disk: Disk, before: seq<Path>, path: Path)
    requires path in disk && forall f | f in before :: f in disk
    ensures ParseOne(site, ParseAll(site, cache, disk, before), path, disk[path]).1
            == ParseOne(site, cache, path, disk[path]).1
  {
    ParseAllLookup(site, cache, disk, before, path);
  }

  /** The k-th yield is the snapshot of the first 50 * (k + 1) files, or of all of them. */
  lemma {:induction false} YieldIsPrefix(raw: seq<Raw>, from: nat, k: nat)
    requires k < |Yields(raw, from)|
    ensures from + k * 50 < |raw|
    ensures Yields(raw, from)[k] == SnapshotOf(raw[..Least(from + (k + 1) * 50, |raw|)])
    decreases k
  {
    if k > 0 {
      YieldIsPrefix(raw, from + BATCH, k - 1);
    }
  }

  lemma {:induction false} YieldCount(raw: seq<Raw>, from: nat)
    ensures var n := |Yields(raw, from)|;
            if from >= |raw| then n == 0 else (n - 1) * BATCH < |raw| - from <= n * BATCH
    decreases |raw| - from
  {
    if from < |raw| {
      YieldCount(raw, from + BATCH);
    }
  }

  /** The last yield shows every file. */
  lemma LastYieldIsComplete(raw: seq<Raw>)
    requires raw != []
    ensures Yields(raw, 0) != [] && Yields(raw, 0)[|Yields(raw, 0)| - 1] == SnapshotOf(raw)
  {
    YieldCount(raw, 0);
    var n := |Yields(raw, 0)|;
    YieldIsPrefix(raw, 0, n - 1);
    assert raw[..|raw|] == raw;
  }

  // ---------- Runs ----------

  datatype Event =
    | Edit(disk: Disk)          // files appear, change or go
    | LoseCache                 // the cache file is deleted or unreadable
    | Rebuild(listing: seq<Path>)

  predicate Lists(listing: seq<Path>, disk: Disk) {
    forall f | f in listing :: f in disk
  }

  /** `shown` is what the last rebuild delivered. */
  datatype State = State(disk: Disk, file: Option<Cache>, shown: seq<Snapshot>)

  function LoadedCache(file: Option<Cache>): Cache {
    if file.Some? then file.value else map[]
  }

  function SavedCache(site: Site, s: State, listing: seq<Path>): Cache
    requires Lists(listing, s.disk)
  {
    SortMembers(ByDate(site), listing);
    var files := Ordered(site, listing);
    Pruned(ParseAll(site, LoadedCache(s.file), s.disk, files), files)
  }

  function Rebuilt(site: Site, s: State, listing: seq<Path>): seq<Snapshot>
    requires Lists(listing, s.disk)
  {
    SortMembers(ByDate(site), listing);
    Yields(ThroughCache(site, LoadedCache(s.file), s.disk, Ordered(site, listing)), 0)
  }

  function Step(site: Site, s: State, e: Event): State {
    match e
    case Edit(disk) => s.(disk := disk)
    case LoseCache => s.(file := None)
    case Rebuild(listing) =>
      if Lists(listing, s.disk) then
        s.(file := Some(SavedCache(site, s, listing)), shown := Rebuilt(site, s, listing))
      else s
  }

  function Run(site: Site, events: seq<Event>): State {
    if events == [] then State(map[], None, []) else Step(site, Run(site, events[..|events| - 1]), events[|events| - 1])
  }

  lemma StepSound(site: Site, s: State, e: Event)
    requires Sound(site, LoadedCache(s.file))
    ensures Sound(site, LoadedCache(Step(site, s, e).file))
  {
    if e.Rebuild? && Lists(e.listing, s.disk) {
      SavedSound(site, s, e.listing);
    }
  }

  /** Whatever edits and rebuilds came before, the cache file on disk is sound. */
  lemma {:induction false} RunSound(site: Site, events: seq<Event>)
    ensures Sound(site, LoadedCache(Run(site, events).file))
  {
    if events != [] {
      RunSound(site, events[..|events| - 1]);
      StepSound(site, Run(site, events[..|events| - 1]), events[|events| - 1]);
    }
  }

  /** So every rebuild of every run delivers exactly the snapshots an uncached one would. */
  lemma RebuildsMatch(site: Site, events: seq<Event>, listing: seq<Path>)
    requires Lists(listing, Run(site, events).disk)
    ensures Run(site, events + [Rebuild(listing)]).shown == Uncached(site, Run(site, events).disk, listing)
  {
    var s := Run(site, events);
    assert (events + [Rebuild(listing)])[..|events|] == events;
    RunSound(site, events);
    SortMembers(ByDate(site), listing);
    ThroughSoundCache(site, LoadedCache(s.file), s.disk, Ordered(site, listing));
  }

  lemma SavedSound(site: Site, s: State, listing: seq<Path>)
    requires Lists(listing, s.disk) && Sound(site, LoadedCache(s.file))
    ensures Sound(site, SavedCache(site, s, listing))
    ensures forall p | p in SavedCache(site, s, listing) :: p in listing
  {
    SortMembers(ByDate(site), listing);
    ParseAllSound(site, LoadedCache(s.file), s.disk, Ordered(site, listing));
  }

  // ---------- The rebuild ----------

  class SessionList {
    const site: Site
    var cache: Cache
    var file: Option<Cache>

    constructor (site: Site, file: Option<Cache>)
      ensures this.site == site && this.file == file
    {
      this.site, this.file, cache := site, file, map[];
    }

    method ParseFile(path: Path, mtime: int) returns (outcome: Option<Data>)
      modifies `cache
      ensures (cache, outcome) == ParseOne(site, old(cache), path, mtime)
    {
      if path in cache && cache[path].mtime == mtime {
        return Some(cache[path].data);
      }
      outcome := site.parse(path, mtime);
      if outcome.Some? {
        cache := cache[path := Cached(mtime, outcome.value)];
      }
    }

    /** Through a sound cache file, the pages are those of parsing everything anew. */
    method BuildSessionList(disk: Disk, listing: seq<Path>) returns (pages: seq<Snapshot>)
      requires Lists(listing, disk) && Sound(site, LoadedCache(file))
      modifies this
      ensures pages == Uncached(site, disk, listing)
      ensures file == Some(SavedCache(site, State(disk, old(file), []), listing))
      ensures Sound(site, LoadedCache(file)) && forall p | p in file.value :: p in listing
    {
      SavedSound(site, State(disk, file, []), listing);
      var files := Ordered(site, listing);
      SortMembers(ByDate(site), listing);
      cache := LoadedCache(file);
      pages := ParseBatches(disk, files);
      file := Some(Pruned(cache, files));
    }

    method ParseBatches(disk: Disk, files: seq<Path>) returns (pages: seq<Snapshot>)
      requires Lists(files, disk) && Sound(site, cache)
      modifies `cache
      ensures pages == Yields(Parsed(site, disk, files), 0)
      ensures cache == ParseAll(site, old(cache), disk, files)
    {
      hide SnapshotOf, Parsed, Reached, Yields;
      ghost var start := cache;
      ghost var whole := Parsed(site, disk, files);
      var raw: seq<Raw> := [];
      pages := [];
      var batchStart := 0;
      ReachedStart(site, cache, disk, files);
      while batchStart < |files|
        invariant 0 <= batchStart && |raw| == Least(batchStart, |files|)
        invariant Reached(site, cache, start, disk, files, raw)
        invariant Yields(whole, 0) == pages + Yields(whole, batchStart)
      {
        raw := ParseBatch(disk, files, start, raw);
        NextYield(site, cache, start, disk, files, raw, pages, batchStart);
        pages := pages + [SnapshotOf(raw)];
        batchStart := batchStart + BATCH;
      }
      ReachedEnd(site, cache, start, disk, files, raw);
      NoYield(whole, batchStart);
    }

    /** One batch of at most fifty files. */
    method ParseBatch(disk: Disk, files: seq<Path>, ghost start: Cache, before: seq<Raw>) returns (raw: seq<Raw>)
      requires Lists(files, disk)
      requires |before| < |files| && Reached(site, cache, start, disk, files, before)
      modifies `cache
      ensures |raw| == Least(|before| + BATCH, |files|) && Reached(site, cache, start, disk, files, raw)
    {
      raw := before;
      var end := Least(|before| + BATCH, |files|);
      while |raw| < end
        invariant |before| <= |raw| <= end && Reached(site, cache, start, disk, files, raw)
      {
        var path := files[|raw|];
        ReachedStep(site, cache, start, disk, files, raw);
        var outcome := ParseFile(path, disk[path]);
        raw := raw + [EntryOf(site, path, outcome)];
      }
    }
  }

  /** The first |raw| files have been processed. */
  ghost predicate Reached(site: Site, cache: Cache, start: Cache, disk: Disk, files: seq<Path>, raw: seq<Raw>)
    requires Lists(files, disk)
  {
    && |raw| <= |files| && raw == Parsed(site, disk, files)[..|raw|]
    && Sound(site, cache) && cache == ParseAll(site, start, disk, files[..|raw|])
  }

  lemma ReachedStart(site: Site, cache: Cache, disk: Disk, files: seq<Path>)
    requires Lists(files, disk) && Sound(site, cache)
    ensures Reached(site, cache, cache, disk, files, [])
  {
  }

  lemma ReachedEnd(site: Site, cache: Cache, start: Cache, disk: Disk, files: seq<Path>, raw: seq<Raw>)
    requires Lists(files, disk) && Reached(site, cache, start, disk, files, raw) && |raw| == |files|
    ensures cache == ParseAll(site, start, disk, files)
  {
    assert files[..|files|] == files;
  }

  lemma NoYield(raw: seq<Raw>, from: nat)
    requires from >= |raw|
    ensures Yields(raw, from) == []
  {
  }

  /** The page after a batch is the next one of the whole list. */
  lemma NextYield(site: Site, cache: Cache, start: Cache, disk: Disk, files: seq<Path>, raw: seq<Raw>,
                  pages: seq<Snapshot>, from: nat)
    requires Lists(files, disk) && Reached(site, cache, start, disk, files, raw)
    requires from < |files| && |raw| == Least(from + BATCH, |files|)
    ensures var whole := Parsed(site, disk, files);
            pages + Yields(whole, from) == pages + [SnapshotOf(raw)] + Yields(whole, from + BATCH)
  {
    hide SnapshotOf, Sound, ParseAll;
  }

  lemma ReachedStep(site: Site, cache: Cache, start: Cache, disk: Disk, files: seq<Path>, raw: seq<Raw>)
    requires Lists(files, disk) && Reached(site, cache, start, disk, files, raw) && |raw| < |files|
    ensures var path := files[|raw|];
            var (cache', outcome) := ParseOne(site, cache, path, disk[path]);
            Reached(site, cache', start, disk, files, raw + [EntryOf(site, path, outcome)])
  {
    var n := |raw|;
    assert files[..n + 1][..n] == files[..n];
    ParseOneSound(site, cache, files[n], disk[files[n]]);
  }
}
