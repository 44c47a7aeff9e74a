/** filetypefetcher/web.py: the older draft of the catalog resolver, the
    archive fetcher and the content store. Its loops are the newer draft's
    (`Web.FillIndex`, `Web.CopyBlocks`, `Web.DigestInput`); what differs is
    the manifest template ("crawl_data"), the missing 503 back-off, the
    missing exception handler around extraction, and the missing "tmp"
    fallback for a URL ending with "/". */
module WebDraft {
  import opened Py
  import opened Web

  const DraftIndexPath := "crawl_data/ID/cc-index.paths.gz"
  const DraftIndexPathsUrl := IndexHost + DraftIndexPath

  /** The older template splits into the crawl_data prefix and the manifest
      suffix. */
  lemma DraftCatalogTemplate()
    ensures |Split(DraftIndexPathsUrl, "ID")| >= 2
    ensures TemplateHalves(DraftIndexPathsUrl) == (IndexHost + "crawl_data/", "/cc-index.paths.gz")
  {
    DraftIndexPathsUrlParts();
    DraftNoMarkerLetter();
    TemplateSplits(IndexHost + "crawl_data/", "/cc-index.paths.gz");
  }

  lemma DraftIndexPathsUrlParts()
    ensures DraftIndexPathsUrl == (IndexHost + "crawl_data/") + "ID" + "/cc-index.paths.gz"
  {
    assert DraftIndexPath == "crawl_data/" + "ID" + "/cc-index.paths.gz";
  }

  lemma DraftNoMarkerLetter()
    ensures 'I' !in IndexHost + "crawl_data/" && 'I' !in "/cc-index.paths.gz"
  {
    assert 'I' !in IndexHost && 'I' !in "crawl_data/";
  }

  /** `get_index_urls` of the older draft: the same guards and the same
      loop, with the older template's halves. */
  method GetIndexUrls(fetch: Fetch, parse: Bytes -> CatalogJson) returns (c: Catalog)
    ensures fetch.Failed? || fetch.status != 200 || parse(fetch.content).NotJson? ==>
      c == Urls(EmptyDict())
    ensures fetch.Response? && fetch.status == 200 && parse(fetch.content).Rows? ==>
      c == IndexOf(parse(fetch.content).rows,
                   IndexHost + "crawl_data/", "/cc-index.paths.gz")
  {
    if fetch.Failed? || fetch.status != 200 {
      return Urls(EmptyDict());
    }
    var json := parse(fetch.content);
    if json.NotJson? {
      return Urls(EmptyDict());
    }
    DraftCatalogTemplate();
    var halves := TemplateHalves(DraftIndexPathsUrl);
    c := FillIndex(json.rows, halves.0, halves.1);
  }

  /** The catalog does not depend on the template for which rows raise or
      for the names it holds, in their order. */
  lemma {:induction false} TemplateKeepsNames(rows: seq<Row>, p1: string, s1: string, p2: string, s2: string)
    ensures IndexOf(rows, p1, s1).Urls? <==> IndexOf(rows, p2, s2).Urls?
    ensures IndexOf(rows, p1, s1).Urls? ==>
      IndexOf(rows, p1, s1).index.keys == IndexOf(rows, p2, s2).index.keys
    decreases |rows|
  {
    if rows != [] {
      TemplateKeepsNames(rows[..|rows| - 1], p1, s1, p2, s2);
    }
  }

  /** Under either template, a name maps to the URL built from the same id. */
  lemma {:induction false} SameIdEitherTemplate(rows: seq<Row>, p1: string, s1: string, p2: string, s2: string, k: string)
    requires IndexOf(rows, p1, s1).Urls? && k in IndexOf(rows, p1, s1).index.values
    ensures IndexOf(rows, p2, s2).Urls? && k in IndexOf(rows, p2, s2).index.values
    ensures exists id :: IndexOf(rows, p1, s1).index.values[k] == p1 + id + s1
                      && IndexOf(rows, p2, s2).index.values[k] == p2 + id + s2
    decreases |rows|
  {
    var init := rows[..|rows| - 1];
    var row := rows[|rows| - 1];
    TemplateKeepsNames(init, p1, s1, p2, s2);
    if k == Sanitise(row.name.value) {
      var id := row.id.value;
      assert IndexOf(rows, p1, s1).index.values[k] == p1 + id + s1;
    } else {
      SameIdEitherTemplate(init, p1, s1, p2, s2, k);
    }
  }

  /** The two drafts read the same catalog into the same names, and every
      manifest URL the older draft builds differs from the newer one's: it
      says "crawl_data" where the newer says "crawl-data". */
  lemma DraftUrlsDiffer(rows: seq<Row>, k: string)
    requires IndexOf(rows, IndexHost + "crawl-data/", "/cc-index.paths.gz").Urls?
    requires k in IndexOf(rows, IndexHost + "crawl-data/", "/cc-index.paths.gz").index.values
    ensures var older := IndexOf(rows, IndexHost + "crawl_data/", "/cc-index.paths.gz");
      var newer := IndexOf(rows, IndexHost + "crawl-data/", "/cc-index.paths.gz");
      && older.Urls? && older.index.keys == newer.index.keys
      && k in older.index.values
      && older.index.values[k] != newer.index.values[k]
  {
    var a, b := IndexHost + "crawl-data/", IndexHost + "crawl_data/";
    var sfx := "/cc-index.paths.gz";
    TemplateKeepsNames(rows, a, sfx, b, sfx);
    SameIdEitherTemplate(rows, a, sfx, b, sfx, k);
    var id :| IndexOf(rows, a, sfx).index.values[k] == a + id + sfx
           && IndexOf(rows, b, sfx).index.values[k] == b + id + sfx;
    HeadsDiffer();
    DifferAt(a, b, id, sfx, |IndexHost| + 5);
  }

  /** The two heads differ right after "crawl". */
  lemma HeadsDiffer()
    ensures var n := |IndexHost| + 5;
      n < |IndexHost + "crawl-data/"| && n < |IndexHost + "crawl_data/"|
      && (IndexHost + "crawl-data/")[n] != (IndexHost + "crawl_data/")[n]
  {
    var n := |IndexHost| + 5;
    assert (IndexHost + "crawl-data/")[n] == "crawl-data/"[5];
    assert (IndexHost + "crawl_data/")[n] == "crawl_data/"[5];
  }

  /** Strings that start with heads differing at `n` differ. */
  lemma DifferAt(a: string, b: string, id: string, sfx: string, n: nat)
    requires n < |a| && n < |b| && a[n] != b[n]
    ensures a + id + sfx != b + id + sfx
  {
    assert (a + id + sfx)[n] == a[n];
    assert (b + id + sfx)[n] == b[n];
  }

  /** `gzip_extract` of the older draft: no handler, so a missing source
      raises before the destination is opened, and a corrupt archive raises
      with the destination holding what was read before the error. */
  method GzipExtract(store: Store, inflate: Bytes -> Inflated, sourcePath: string,
                     destPath: string, blockSize: int)
    returns (raised: bool, after: Store)
    ensures sourcePath !in store ==> raised && after == store
    ensures sourcePath in store ==>
      var z := inflate(store[sourcePath]);
      && after == store[destPath := if blockSize == 0 then [] else z.data]
      && raised == (blockSize != 0 && z.corrupt)
  {
    if sourcePath !in store {
      return true, store;
    }
    var z := inflate(store[sourcePath]);
    var written;
    written, raised := CopyBlocks(z, blockSize);
    after := store[destPath := written];
  }

  /** What a call that returns a path came to: it raised, or it returned. */
  datatype PathResult = Raises | Gives(path: string)

  /** `download_and_ungzip` of the older draft: every status but 200, 503
      included, returns "" at once; the extraction is not checked, so a
      corrupt archive raises out of the call and leaves the archive on
      disk; otherwise the archive is removed and the output path returned. */
  method DownloadAndUngzip(store: Store, inflate: Bytes -> Inflated, tmpName: string,
                           fetch: Fetch, outDir: string, outputFileName: string)
    returns (result: PathResult, after: Store)
    ensures fetch.Failed? || fetch.status != 200 ==> result == Gives("") && after == store
    ensures fetch.Response? && fetch.status == 200 ==>
      var gz := outDir + "/" + tmpName;
      var out := outDir + "/" + outputFileName;
      var z := inflate(fetch.content);
      var extracted := store[gz := fetch.content][out := z.data];
      && (z.corrupt ==> result == Raises && after == extracted)
      && (!z.corrupt ==> result == Gives(out) && after == extracted - {gz})
  {
    if fetch.Failed? || fetch.status != 200 {
      return Gives(""), store;
    }
    var gz := outDir + "/" + tmpName;
    var written := store[gz := fetch.content];
    var out := outDir + "/" + outputFileName;
    var raised;
    raised, after := GzipExtract(written, inflate, gz, out, ReadBlockSize);
    if raised {
      return Raises, after;
    }
    after := after - {gz};
    result := Gives(out);
  }

  /** `save_file` of the older draft. The temporary name is the URL's last
      "/" segment with no fallback: for a URL that is empty or ends with "/"
      it is the directory itself, and opening it for writing raises. Else
      the content is stored under its md5 name, as in the newer draft. */
  method SaveFile(store: Store, md5Hex: Bytes -> string, url: string, outDir: string,
                  filetype: string, fetch: Fetch)
    returns (outcome: Saved, after: Store)
    ensures outDir == "" ==> outcome == Raised && after == store
    ensures outDir != "" && (fetch.Failed? || fetch.status != 200) ==>
      outcome == Returned(-1) && after == store
    ensures outDir != "" && fetch.Response? && fetch.status == 200 && (url == "" || url[|url| - 1] == '/') ==>
      outcome == Raised && after == store
    ensures outDir != "" && fetch.Response? && fetch.status == 200 && url != "" && url[|url| - 1] != '/' ==>
      var dir := WithTrailingSlash(outDir);
      && outcome == Returned(0)
      && after == SaveEffect(store, dir + LastSegment(url, '/'),
                             StoredPath(dir, md5Hex, fetch.content, filetype), fetch.content)
  {
    if outDir == "" {
      return Raised, store;
    }
    var dir := WithTrailingSlash(outDir);
    if fetch.Failed? || fetch.status != 200 {
      return Returned(-1), store;
    }
    var tmp := dir + LastSegment(url, '/');
    EmptyLastSegment(url, '/');
    LastSegmentIsFreeSuffix(url, '/');
    ghost var r := LastSegment(url, '/');
    if r != "" {
      assert tmp[|tmp| - 1] == r[|r| - 1] && r[|r| - 1] in r;
    }
    if tmp[|tmp| - 1] == '/' {
      // the path names the directory: open(tmp, "wb") raises
      return Raised, store;
    }
    var disk := store[tmp := fetch.content];
    var absorbed := DigestInput(disk[tmp]);
    disk := disk - {tmp};
    var filename := md5Hex(absorbed);
    disk := disk[dir + filename + "." + filetype := fetch.content];
    return Returned(0), disk;
  }
}
