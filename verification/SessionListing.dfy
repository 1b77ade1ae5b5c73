/** What a page of the session list shows, and which files a rebuild does not parse again. */
module SessionListing {
  import opened Python
  import opened Sorting
  import opened SessionCache

  // ---------- One page ----------

  function ShownOne(r: Raw): Session {
    Session(r.slug, r.date, r.details)
  }

  lemma {:induction false} InsertShown(x: Raw, s: seq<Raw>)
    ensures multiset(Shown(Insert(NewerFirst, x, s))) == multiset{ShownOne(x)} + multiset(Shown(s))
  {
    if s == [] || NewerFirst(x, s[0]) {
      assert Shown([x] + s) == [ShownOne(x)] + Shown(s);
    } else {
      InsertShown(x, s[1..]);
      var rest := Insert(NewerFirst, x, s[1..]);
      assert Shown([s[0]] + rest) == [ShownOne(s[0])] + Shown(rest);
      assert Shown(s) == [ShownOne(s[0])] + Shown(s[1..]);
    }
  }

  lemma {:induction false} SortShown(s: seq<Raw>)
    ensures multiset(Shown(Sort(NewerFirst, s))) == multiset(Shown(s))
  {
    if s != [] {
      SortShown(s[1..]);
      InsertShown(s[0], Sort(NewerFirst, s[1..]));
      assert Shown(s) == [ShownOne(s[0])] + Shown(s[1..]);
    }
  }

  lemma NewerFirstTotal()
    ensures TotalPreorder(NewerFirst)
  {
    forall a: Raw, b: Raw ensures NewerFirst(a, b) || NewerFirst(b, a) {
      StringLeTotal(a.date, b.date);
    }
    forall a: Raw, b: Raw, c: Raw | NewerFirst(a, b) && NewerFirst(b, c) ensures NewerFirst(a, c) {
      StringLeTransitive(c.date, b.date, a.date);
    }
  }

  /** A page shows every entry once, the latest date first. */
  lemma PageNewestFirst(raw: seq<Raw>)
    ensures var page := SnapshotOf(raw).sessions;
            && multiset(page) == multiset(Shown(raw))
            && forall i, j | 0 <= i < j < |page| :: StringLe(page[j].date, page[i].date)
  {
    var sorted := Sort(NewerFirst, raw);
    SortShown(raw);
    NewerFirstTotal();
    SortSorts(NewerFirst, raw);
    forall i, j | 0 <= i < j < |sorted| ensures StringLe(sorted[j].date, sorted[i].date) {
      assert NewerFirst(sorted[i], sorted[j]);
    }
  }

  lemma {:induction false} SlugMapLast(sorted: seq<Raw>, slug: string) returns (k: nat)
    ensures slug in SlugMap(sorted) <==> exists i | 0 <= i < |sorted| :: sorted[i].slug == slug
    ensures slug in SlugMap(sorted) ==>
              && k < |sorted| && sorted[k].slug == slug && SlugMap(sorted)[slug] == sorted[k].path
              && forall i | k < i < |sorted| :: sorted[i].slug != slug
  {
    k := 0;
    if sorted != [] {
      var n := |sorted| - 1;
      k := SlugMapLast(sorted[..n], slug);
      if sorted[n].slug == slug {
        k := n;
      }
    }
  }

  /** A page's links: a slug leads to a file exactly when an entry has it, namely to the entry of
      the earliest date among those that do. */
  lemma PageLinks(raw: seq<Raw>, slug: string)
    ensures slug in SnapshotOf(raw).paths <==> exists r | r in raw :: r.slug == slug
    ensures slug in SnapshotOf(raw).paths ==>
              exists r | r in raw :: r.slug == slug && SnapshotOf(raw).paths[slug] == r.path
                && forall q | q in raw && q.slug == slug :: StringLe(r.date, q.date)
  {
    var sorted := Sort(NewerFirst, raw);
    SortMembers(NewerFirst, raw);
    NewerFirstTotal();
    SortSorts(NewerFirst, raw);
    var k := SlugMapLast(sorted, slug);
    if slug in SlugMap(sorted) {
      assert sorted[k] in sorted;
      forall q | q in raw && q.slug == slug ensures StringLe(sorted[k].date, q.date) {
        var i :| 0 <= i < |sorted| && sorted[i] == q;
        StringLeTotal(q.date, q.date);
        assert i < k ==> NewerFirst(sorted[i], sorted[k]);
      }
    }
    if exists r | r in raw :: r.slug == slug {
      var r :| r in raw && r.slug == slug;
      assert r in sorted;
    }
  }

  /** The files are processed once each, the latest date first, so the first pages show the latest. */
  lemma NewestParsedFirst(site: Site, listing: seq<Path>)
    ensures var files := Ordered(site, listing);
            && multiset(files) == multiset(listing)
            && forall i, j | 0 <= i < j < |files| :: StringLe(site.date(files[j]), site.date(files[i]))
  {
    var le := ByDate(site);
    forall a: Path, b: Path ensures le(a, b) || le(b, a) {
      StringLeTotal(site.date(a), site.date(b));
    }
    forall a: Path, b: Path, c: Path | le(a, b) && le(b, c) ensures le(a, c) {
      StringLeTransitive(site.date(c), site.date(b), site.date(a));
    }
    SortSorts(le, listing);
    SortContents(le, listing);
    var files := Ordered(site, listing);
    forall i, j | 0 <= i < j < |files| ensures StringLe(site.date(files[j]), site.date(files[i])) {
      assert le(files[i], files[j]);
    }
  }

  /** An entry shows the date and slug of its file's name and the details of what parsing gave. */
  lemma EntryShows(site: Site, disk: Disk, files: seq<Path>, i: nat)
    requires (forall f | f in files :: f in disk) && i < |files|
    ensures var r := Parsed(site, disk, files)[i];
            && r.path == files[i] && r.slug == site.slug(files[i]) && r.date == site.date(files[i])
            && r.details == site.details(files[i], site.parse(files[i], disk[files[i]]))
  {
  }

  // ---------- What is not parsed again ----------

  /** The cache answers for a file as it is now. */
  predicate Hits(cache: Cache, disk: Disk, p: Path) {
    p in disk && p in cache && cache[p].mtime == disk[p]
  }

  /** After a rebuild, the saved cache answers for every listed file that could be parsed. */
  lemma SavedHits(site: Site, s: State, listing: seq<Path>, p: Path)
    requires Lists(listing, s.disk) && p in listing && site.parse(p, s.disk[p]).Some?
    ensures Hits(SavedCache(site, s, listing), s.disk, p)
  {
    hide ParseAll, Ordered, Refreshed;
    OrderedMembers(site, listing);
    var files, cache := Ordered(site, listing), LoadedCache(s.file);
    assert p in files;
    ParseAllLookup(site, cache, s.disk, files, p);
    RefreshedNow(site, Lookup(cache, p), p, s.disk[p]);
  }

  lemma OrderedMembers(site: Site, listing: seq<Path>)
    ensures forall p :: p in Ordered(site, listing) <==> p in listing
  {
    SortMembers(ByDate(site), listing);
  }

  lemma RefreshedNow(site: Site, cached: Option<Cached>, path: Path, mtime: int)
    requires site.parse(path, mtime).Some?
    ensures var after := Refreshed(site, cached, path, mtime); after.Some? && after.value.mtime == mtime
  {
  }

  lemma {:induction false} HitsUnparsed(site: Site, cache: Cache, disk: Disk, files: seq<Path>)
    requires forall f | f in files :: f in disk && f in cache && Hits(cache, disk, f)
    ensures ParseAll(site, cache, disk, files) == cache
    ensures |ThroughCache(site, cache, disk, files)| == |files|
    ensures forall i | 0 <= i < |files| ::
              ThroughCache(site, cache, disk, files)[i] == EntryOf(site, files[i], Some(cache[files[i]].data))
  {
    if files != [] {
      var n := |files| - 1;
      assert files[n] in files && forall f | f in files[..n] :: f in files;
      HitsUnparsed(site, cache, disk, files[..n]);
      hide EntryOf;
      assert ParseOne(site, cache, files[n], disk[files[n]]) == (cache, Some(cache[files[n]].data));
    }
  }

  /** The same site, but for what parsing would give. */
  ghost predicate SameNames(site: Site, other: Site) {
    site.details == other.details && site.date == other.date && site.slug == other.slug
  }

  /** A rebuild through a cache that answers for all listed files reads none of them: whatever parsing
      would give now, the pages and the saved cache are the same. */
  lemma AllHitsSkip(site: Site, other: Site, s: State, listing: seq<Path>)
    requires SameNames(site, other) && Lists(listing, s.disk)
    requires forall p | p in listing :: Hits(LoadedCache(s.file), s.disk, p)
    ensures Rebuilt(other, s, listing) == Rebuilt(site, s, listing)
    ensures SavedCache(other, s, listing) == SavedCache(site, s, listing)
  {
    hide ParseAll, ThroughCache, Yields;
    SameOrder(site, other);
    OrderedMembers(site, listing);
    var cache, files := LoadedCache(s.file), Ordered(site, listing);
    assert Ordered(other, listing) == files;
    HitsUnparsed(site, cache, s.disk, files);
    HitsUnparsed(other, cache, s.disk, files);
    assert ThroughCache(site, cache, s.disk, files) == ThroughCache(other, cache, s.disk, files);
  }

  lemma RunOneMore(site: Site, events: seq<Event>, e: Event)
    ensures Run(site, events + [e]) == Step(site, Run(site, events), e)
  {
    assert (events + [e])[..|events|] == events;
  }

  lemma RebuiltHits(site: Site, s: State, listing: seq<Path>)
    requires Lists(listing, s.disk) && forall p | p in listing :: p in s.disk && site.parse(p, s.disk[p]).Some?
    ensures var t := Step(site, s, Rebuild(listing));
            && t.disk == s.disk && t.file == Some(SavedCache(site, s, listing))
            && forall p | p in listing :: Hits(LoadedCache(t.file), t.disk, p)
  {
    hide SavedCache, Rebuilt, Hits;
    forall p | p in listing ensures Hits(SavedCache(site, s, listing), s.disk, p) {
      SavedHits(site, s, listing, p);
    }
  }

  /** So it is right after a rebuild that could parse all listed files. */
  lemma RebuildSkips(site: Site, other: Site, events: seq<Event>, listing: seq<Path>)
    requires SameNames(site, other)
    requires var disk := Run(site, events).disk;
             Lists(listing, disk) && forall p | p in listing :: p in disk && site.parse(p, disk[p]).Some?
    ensures var s := Run(site, events + [Rebuild(listing)]);
            && Lists(listing, s.disk)
            && Rebuilt(other, s, listing) == Rebuilt(site, s, listing)
            && SavedCache(other, s, listing) == SavedCache(site, s, listing)
  {
    hide Run, Hits, SavedCache, Rebuilt, Step, SameNames;
    RunOneMore(site, events, Rebuild(listing));
    RebuiltHits(site, Run(site, events), listing);
    AllHitsSkip(site, other, Run(site, events + [Rebuild(listing)]), listing);
  }

  lemma SameOrder(site: Site, other: Site)
    requires site.date == other.date
    ensures ByDate(site) == ByDate(other)
  {
  }
}
