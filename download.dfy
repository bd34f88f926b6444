/**
 * The accounting of `download_all_airfoils` in AirfoilData_Get.py: the
 * scraped links are made unique, shuffled, and each one is skipped (its
 * local file exists), downloaded (written to disk) or counted as an error
 * (request failure, other exception, or a body under 50 bytes). The HTTP
 * fetch of a link is an oracle `fetch(link)`.
 */
module Download {
  import opened Text

  type Bytes = seq<bv8>
  type Files = map<string, Bytes>

  /** Bodies shorter than this are taken for error pages and not written. */
  const MinContentSize := 50

  /** How `session.get(file_url)` and the write of its body ended. */
  datatype Fetch = RequestFailed | OtherFailure | Body(content: Bytes)

  datatype Kind = Skipped | Downloaded | Failed

  datatype Counts = Counts(downloaded: nat, errors: nat, skipped: nat)

  /** What one link leaves: its counter, the files, and whether it was fetched. */
  datatype LinkResult = LinkResult(kind: Kind, files: Files, fetched: bool)

  /** The counters, the files, and the links fetched, in order. */
  datatype Tally = Tally(counts: Counts, files: Files, requested: seq<string>)

  predicate NoDuplicates(s: seq<string>)
  {
    forall i, j :: 0 <= i < j < |s| ==> s[i] != s[j]
  }

  /** `list(set(dat_links))`, in first-seen order. */
  function Dedup(links: seq<string>): (r: seq<string>)
    ensures NoDuplicates(r)
    ensures forall l :: l in r <==> l in links
  {
    if links == [] then []
    else
      var rest := Dedup(links[..|links| - 1]);
      var last := links[|links| - 1];
      assert forall l :: l in links <==> l in links[..|links| - 1] || l == last;
      if last in rest then rest else rest + [last]
  }

  /** `os.path.join(output_dir, os.path.basename(rel_path))` */
  function LocalPath(outputDir: string, link: string): string
  {
    Join(outputDir, Basename(link))
  }

  function Bump(c: Counts, k: Kind): Counts
  {
    match k
    case Skipped => c.(skipped := c.skipped + 1)
    case Downloaded => c.(downloaded := c.downloaded + 1)
    case Failed => c.(errors := c.errors + 1)
  }

  function Total(c: Counts): nat
  {
    c.downloaded + c.errors + c.skipped
  }

  /** One iteration of the download loop. */
  function FetchLink(files: Files, outputDir: string, link: string, fetch: string -> Fetch): (r: LinkResult)
    ensures r.fetched <==> r.kind != Skipped
  {
    var path := LocalPath(outputDir, link);
    if path in files then LinkResult(Skipped, files, false)
    else
      match fetch(link)
      case RequestFailed => LinkResult(Failed, files, true)
      case OtherFailure => LinkResult(Failed, files, true)
      case Body(content) =>
        if |content| < MinContentSize then LinkResult(Failed, files, true)
        else LinkResult(Downloaded, files[path := content], true)
  }

  /** The download loop over `links`, each link seeing the files the earlier ones wrote. */
  function TallyLinks(files: Files, outputDir: string, links: seq<string>, fetch: string -> Fetch): Tally
  {
    if links == [] then Tally(Counts(0, 0, 0), files, [])
    else
      var before := TallyLinks(files, outputDir, links[..|links| - 1], fetch);
      var link := links[|links| - 1];
      var r := FetchLink(before.files, outputDir, link, fetch);
      Tally(Bump(before.counts, r.kind), r.files, if r.fetched then before.requested + [link] else before.requested)
  }

  /** The local directory, as `os.path.exists` and `open(..., 'wb')` see it. */
  class Store {
    var files: Files

    constructor (files0: Files)
      ensures files == files0
    {
      files := files0;
    }

    method Write(path: string, content: Bytes)
      modifies this
      ensures files == old(files)[path := content]
    {
      files := files[path := content];
    }
  }

  /**
   * `download_all_airfoils`. `order` is `unique_links` after
   * `random.shuffle`; `requested` lists the links actually fetched.
   */
  method DownloadAll(store: Store, outputDir: string, datLinks: seq<string>, order: seq<string>, fetch: string -> Fetch)
    returns (counts: Counts, requested: seq<string>)
    requires multiset(order) == multiset(Dedup(datLinks))
    modifies store
    ensures datLinks == [] ==> counts == Counts(0, 0, 0) && requested == [] && store.files == old(store.files)
    ensures Tally(counts, store.files, requested) == TallyLinks(old(store.files), outputDir, order, fetch)
  {
    if datLinks == [] {
      assert |order| == |multiset(order)| == 0;
      return Counts(0, 0, 0), [];
    }
    var uniqueLinks := order;
    ghost var files0 := store.files;
    var downloadedCount, errorCount, skippedCount := 0, 0, 0;
    requested := [];
    var i := 0;
    while i < |uniqueLinks|
      invariant 0 <= i <= |uniqueLinks|
      invariant downloadedCount == TallyLinks(files0, outputDir, uniqueLinks[..i], fetch).counts.downloaded
      invariant errorCount == TallyLinks(files0, outputDir, uniqueLinks[..i], fetch).counts.errors
      invariant skippedCount == TallyLinks(files0, outputDir, uniqueLinks[..i], fetch).counts.skipped
      invariant store.files == TallyLinks(files0, outputDir, uniqueLinks[..i], fetch).files
      invariant requested == TallyLinks(files0, outputDir, uniqueLinks[..i], fetch).requested
    {
      TallyStep(files0, outputDir, uniqueLinks, i, fetch);
      ghost var r := FetchLink(store.files, outputDir, uniqueLinks[i], fetch);
      var relPath := uniqueLinks[i];
      var localPath := LocalPath(outputDir, relPath);
      if localPath in store.files {
        assert r == LinkResult(Skipped, store.files, false);
        skippedCount := skippedCount + 1;
      } else {
        requested := requested + [relPath];
        match fetch(relPath) {
          case RequestFailed =>
            assert r == LinkResult(Failed, store.files, true);
            errorCount := errorCount + 1;
          case OtherFailure =>
            assert r == LinkResult(Failed, store.files, true);
            errorCount := errorCount + 1;
          case Body(content) =>
            if |content| < MinContentSize {
              assert r == LinkResult(Failed, store.files, true);
              errorCount := errorCount + 1;
            } else {
              assert r == LinkResult(Downloaded, store.files[localPath := content], true);
              store.Write(localPath, content);
              downloadedCount := downloadedCount + 1;
            }
        }
      }
      i := i + 1;
    }
    assert uniqueLinks[..i] == uniqueLinks;
    counts := Counts(downloadedCount, errorCount, skippedCount);
  }

  /** The tally of one more link, from the tally of the links before it. */
  lemma TallyStep(files: Files, outputDir: string, links: seq<string>, i: nat, fetch: string -> Fetch)
    requires i < |links|
    ensures var before := TallyLinks(files, outputDir, links[..i], fetch);
      var r := FetchLink(before.files, outputDir, links[i], fetch);
      TallyLinks(files, outputDir, links[..i + 1], fetch)
        == Tally(Bump(before.counts, r.kind), r.files, if r.fetched then before.requested + [links[i]] else before.requested)
  {
    assert links[..i + 1][..i] == links[..i];
  }

  // ---------------------------------------------------------------------------
  // Properties of the tally

  /** The shuffled unique links hold each scraped link exactly once. */
  lemma ShuffledLinksUnique(datLinks: seq<string>, order: seq<string>)
    requires multiset(order) == multiset(Dedup(datLinks))
    ensures NoDuplicates(order)
    ensures forall l :: l in order <==> l in datLinks
  {
    var u := Dedup(datLinks);
    forall l | l in order
      ensures multiset(order)[l] == 1
    {
      assert l in multiset(u);
      OccursOnce(u, l);
    }
    forall i, j | 0 <= i < j < |order|
      ensures order[i] != order[j]
    {
      if order[i] == order[j] {
        TwoOccurrences(order, i, j);
        assert false;
      }
    }
  }

  lemma {:induction false} OccursOnce(s: seq<string>, x: string)
    requires NoDuplicates(s) && x in s
    ensures multiset(s)[x] == 1
  {
    var init := s[..|s| - 1];
    assert s == init + [s[|s| - 1]];
    assert NoDuplicates(init);
    if s[|s| - 1] == x {
      assert x !in init;
    } else {
      OccursOnce(init, x);
    }
  }

  lemma TwoOccurrences(s: seq<string>, i: int, j: int)
    requires 0 <= i < j < |s| && s[i] == s[j]
    ensures multiset(s)[s[i]] >= 2
  {
    assert s == s[..i] + [s[i]] + s[i + 1..j] + [s[j]] + s[j + 1..];
  }

  /** Every link lands in exactly one counter, so the three counters add up to the number of links. */
  lemma {:induction false} EveryLinkCountedOnce(files: Files, outputDir: string, links: seq<string>, fetch: string -> Fetch)
    ensures Total(TallyLinks(files, outputDir, links, fetch).counts) == |links|
  {
    if links != [] {
      var init, link := links[..|links| - 1], links[|links| - 1];
      EveryLinkCountedOnce(files, outputDir, init, fetch);
      var before := TallyLinks(files, outputDir, init, fetch);
      var r := FetchLink(before.files, outputDir, link, fetch);
      assert TallyLinks(files, outputDir, links, fetch).counts == Bump(before.counts, r.kind);
    }
  }

  /**
   * Over the shuffled unique links, the three counters add up to the
   * number of distinct scraped links, `len(unique_links)`.
   */
  lemma AllLinksAccounted(files: Files, outputDir: string, datLinks: seq<string>, order: seq<string>, fetch: string -> Fetch)
    requires multiset(order) == multiset(Dedup(datLinks))
    ensures Total(TallyLinks(files, outputDir, order, fetch).counts) == |Dedup(datLinks)|
  {
    EveryLinkCountedOnce(files, outputDir, order, fetch);
    assert |order| == |multiset(order)| == |multiset(Dedup(datLinks))| == |Dedup(datLinks)|;
  }

  /** The links fetched are exactly as many as the downloads and the errors together. */
  lemma {:induction false} FetchedAreDownloadsAndErrors(files: Files, outputDir: string, links: seq<string>, fetch: string -> Fetch)
    ensures |TallyLinks(files, outputDir, links, fetch).requested|
         == TallyLinks(files, outputDir, links, fetch).counts.downloaded + TallyLinks(files, outputDir, links, fetch).counts.errors
  {
    if links != [] {
      var init, link := links[..|links| - 1], links[|links| - 1];
      FetchedAreDownloadsAndErrors(files, outputDir, init, fetch);
      var before := TallyLinks(files, outputDir, init, fetch);
      var r := FetchLink(before.files, outputDir, link, fetch);
      var t := TallyLinks(files, outputDir, links, fetch);
      assert t.counts == Bump(before.counts, r.kind);
      assert t.requested == if r.fetched then before.requested + [link] else before.requested;
    }
  }

  /** A link whose local file exists is skipped: not fetched, nothing written. */
  lemma ExistingFileSkipped(files: Files, outputDir: string, link: string, fetch: string -> Fetch)
    requires LocalPath(outputDir, link) in files
    ensures FetchLink(files, outputDir, link, fetch) == LinkResult(Skipped, files, false)
  {
  }

  /** A body under 50 bytes is not written and counts as an error. */
  lemma ShortBodyIsError(files: Files, outputDir: string, link: string, fetch: string -> Fetch)
    requires LocalPath(outputDir, link) !in files
    requires fetch(link).Body? && |fetch(link).content| < MinContentSize
    ensures FetchLink(files, outputDir, link, fetch) == LinkResult(Failed, files, true)
  {
  }

  /** A body of at least 50 bytes for a new local path is written there and counts as a download. */
  lemma LargeBodyDownloaded(files: Files, outputDir: string, link: string, fetch: string -> Fetch)
    requires LocalPath(outputDir, link) !in files
    requires fetch(link).Body? && |fetch(link).content| >= MinContentSize
    ensures FetchLink(files, outputDir, link, fetch) == LinkResult(Downloaded, files[LocalPath(outputDir, link) := fetch(link).content], true)
  {
  }

  /** A failed request, or any other exception, for a new local path writes nothing and counts as an error. */
  lemma FailedFetchIsError(files: Files, outputDir: string, link: string, fetch: string -> Fetch)
    requires LocalPath(outputDir, link) !in files
    requires !fetch(link).Body?
    ensures FetchLink(files, outputDir, link, fetch) == LinkResult(Failed, files, true)
  {
  }

  /**
   * Over the whole loop, the files only grow, and `downloaded_count` is
   * exactly the number of local files that were not there before.
   */
  lemma {:induction false} DownloadsAreNewFiles(files: Files, outputDir: string, links: seq<string>, fetch: string -> Fetch)
    ensures var t := TallyLinks(files, outputDir, links, fetch);
      files.Keys <= t.files.Keys && t.counts.downloaded == |t.files.Keys - files.Keys|
  {
    if links != [] {
      var init := links[..|links| - 1];
      DownloadsAreNewFiles(files, outputDir, init, fetch);
      NewFilesStep(files, outputDir, TallyLinks(files, outputDir, init, fetch), links[|links| - 1], fetch);
    }
  }

  /** One more link keeps the download count equal to the number of new files. */
  lemma NewFilesStep(files: Files, outputDir: string, before: Tally, link: string, fetch: string -> Fetch)
    requires files.Keys <= before.files.Keys && before.counts.downloaded == |before.files.Keys - files.Keys|
    ensures var r := FetchLink(before.files, outputDir, link, fetch);
      files.Keys <= r.files.Keys && Bump(before.counts, r.kind).downloaded == |r.files.Keys - files.Keys|
  {
    FetchLinkWrites(before.files, outputDir, link, fetch);
    if FetchLink(before.files, outputDir, link, fetch).kind == Downloaded {
      OneNewKey(files.Keys, before.files, LocalPath(outputDir, link), fetch(link).content);
    }
  }

  /** Only a download changes the files, and it adds the body at a path that was absent. */
  lemma FetchLinkWrites(files: Files, outputDir: string, link: string, fetch: string -> Fetch)
    ensures var r := FetchLink(files, outputDir, link, fetch);
      var path := LocalPath(outputDir, link);
      && (r.kind == Downloaded ==> path !in files && fetch(link).Body? && r.files == files[path := fetch(link).content])
      && (r.kind != Downloaded ==> r.files == files)
  {
  }

  /** Writing one path that was not there adds one to the count of new paths. */
  lemma OneNewKey(old0: set<string>, now: Files, path: string, content: Bytes)
    requires old0 <= now.Keys && path !in now
    ensures old0 <= now[path := content].Keys
    ensures |now[path := content].Keys - old0| == |now.Keys - old0| + 1
  {
    assert now[path := content].Keys - old0 == (now.Keys - old0) + {path};
  }

  /**
   * Over the whole loop, files that existed are never touched, and every
   * new file holds a fetched body of at least 50 bytes.
   */
  lemma {:induction false} OnlyLargeNewFiles(files: Files, outputDir: string, links: seq<string>, fetch: string -> Fetch)
    ensures var t := TallyLinks(files, outputDir, links, fetch);
      && (forall p :: p in files ==> p in t.files && t.files[p] == files[p])
      && (forall p :: p in t.files && p !in files ==>
            |t.files[p]| >= MinContentSize && exists l :: l in links && p == LocalPath(outputDir, l) && fetch(l) == Body(t.files[p]))
  {
    if links != [] {
      var init := links[..|links| - 1];
      OnlyLargeNewFiles(files, outputDir, init, fetch);
      assert forall l :: l in init ==> l in links;
    }
  }
}
