/** cmoncrawl-fetcher/web.py: the index catalog resolver, the archive fetcher
    and the content store of the newer draft.

    The network, the disk, gzip and md5 are not modelled: what `requests.get`
    produced is a `Fetch` value, the disk is a `Store` from paths to bytes,
    decompression is a function `inflate` and the hex digest a function
    `md5Hex`, all handed in by the caller. */
module Web {
  import opened Py

  newtype byte = b: int | 0 <= b < 256
  type Bytes = seq<byte>

  /** What `requests.get` produced: it raised, or it returned a response. */
  datatype Fetch = Failed | Response(status: int, content: Bytes)

  /** The files on disk, by path. */
  type Store = map<string, Bytes>

  /** What reading a gzip file yields: the decompressed bytes, then either the
      end of the stream or, for a corrupt or truncated archive, an exception. */
  datatype Inflated = Inflated(data: Bytes, corrupt: bool)

  /** What a call of `save_file` came to: it raised, or it returned a code. */
  datatype Saved = Raised | Returned(code: int)

  const IndexFilesUrl := "https://index.commoncrawl.org/collinfo.json"
  const IndexHost := "https://data.commoncrawl.org/"
  const IndexPath := "crawl-data/ID/cc-index.paths.gz"
  const IndexPathsUrl := IndexHost + IndexPath
  const ReadBlockSize := 65536

  // ---------------------------------------------------------------------
  // Reading in blocks
  // ---------------------------------------------------------------------

  /** `f.read(n)` at offset `pos` of a stream that yields `z`: a block of at
      most `n` bytes (all that is left when `n` is negative, nothing when `n`
      is 0), or None where the read raises. */
  function ReadAt(z: Inflated, pos: nat, n: int): (block: Option<Bytes>)
    requires pos <= |z.data|
    ensures block.Some? ==> pos + |block.value| <= |z.data|
    ensures block.Some? ==> block.value == z.data[pos..pos + |block.value|]
    ensures block.Some? && block.value == [] ==> n == 0 || (pos == |z.data| && !z.corrupt)
    ensures block.None? <==> n != 0 && pos == |z.data| && z.corrupt
  {
    if n == 0 then Some([])
    else if pos == |z.data| && z.corrupt then None
    else if n < 0 || pos + n >= |z.data| then Some(z.data[pos..])
    else Some(z.data[pos..pos + n])
  }

  /** The block copy loop of `gzip_extract`: read a block, stop at an empty
      one, write it otherwise. The output is every byte the stream yields,
      in order (nothing when the block size is 0, since `read(0)` is empty);
      a read raises exactly when the stream is corrupt. */
  method CopyBlocks(z: Inflated, blockSize: int) returns (written: Bytes, raised: bool)
    ensures written == if blockSize == 0 then [] else z.data
    ensures raised <==> blockSize != 0 && z.corrupt
  {
    var pos: nat := 0;
    written := [];
    while true
      invariant pos <= |z.data| && written == z.data[..pos]
      invariant blockSize == 0 ==> pos == 0
      decreases |z.data| - pos
    {
      var block := ReadAt(z, pos, blockSize);
      if block.None? {
        raised := true;
        return;
      }
      if block.value == [] {
        break;
      }
      written := written + block.value;
      pos := pos + |block.value|;
    }
    raised := false;
  }

  /** The digest loop of `save_file`: read the file back in blocks of
      READ_BLOCK_SIZE and feed each to `md5.update`. What the digest has
      absorbed at the end is the whole file, so the name is the md5 of the
      content. */
  method DigestInput(data: Bytes) returns (absorbed: Bytes)
    ensures absorbed == data
  {
    var z := Inflated(data, false);
    var pos: nat := 0;
    var block := ReadAt(z, pos, ReadBlockSize);
    absorbed := [];
    while |block.value| > 0
      invariant pos <= |data| && absorbed == data[..pos]
      invariant block.Some? && block == ReadAt(z, pos, ReadBlockSize)
      decreases |data| - pos
    {
      absorbed := absorbed + block.value;
      pos := pos + |block.value|;
      block := ReadAt(z, pos, ReadBlockSize);
    }
  }

  /** `gzip_extract`: decompress the file at `sourcePath` into `destPath`.
      A missing source raises before the destination is opened; a corrupt
      archive leaves the destination holding what was read before the error.
      Either exception is caught and gives 1. */
  method GzipExtract(store: Store, inflate: Bytes -> Inflated, sourcePath: string,
                     destPath: string, blockSize: int)
    returns (code: int, after: Store)
    ensures sourcePath !in store ==> code == 1 && after == store
    ensures sourcePath in store ==>
      var z := inflate(store[sourcePath]);
      && after == store[destPath := if blockSize == 0 then [] else z.data]
      && code == (if blockSize != 0 && z.corrupt then 1 else 0)
  {
    if sourcePath !in store {
      return 1, store;
    }
    var z := inflate(store[sourcePath]);
    var written, raised := CopyBlocks(z, blockSize);
    after := store[destPath := written];
    code := if raised then 1 else 0;
  }

  // ---------------------------------------------------------------------
  // Archive fetcher
  // ---------------------------------------------------------------------

  /** `download_and_ungzip`: keep a 200 response as `outDir/tmpName`,
      decompress it into `outDir/outputFileName`, delete the archive and
      return the output path. Every failure returns "": an exception, a 503
      (after backing off), any other status but 200, and a failed extraction,
      which leaves the archive on disk. */
  method DownloadAndUngzip(store: Store, inflate: Bytes -> Inflated, tmpName: string,
                           fetch: Fetch, outDir: string, outputFileName: string)
    returns (path: string, backedOff: bool, after: Store)
    ensures backedOff <==> fetch.Response? && fetch.status == 503
    ensures fetch.Failed? || fetch.status != 200 ==> path == "" && after == store
    ensures fetch.Response? && fetch.status == 200 ==>
      var gz := outDir + "/" + tmpName;
      var out := outDir + "/" + outputFileName;
      var z := inflate(fetch.content);
      var extracted := store[gz := fetch.content][out := z.data];
      && (path != "" <==> !z.corrupt)
      && (path != "" ==> path == out && after == extracted - {gz})
      && (path == "" ==> after == extracted)
  {
    if fetch.Failed? {
      return "", false, store;
    }
    if fetch.status == 503 {
      // time.sleep(8) is not modelled; the back-off is reported instead
      return "", true, store;
    }
    if fetch.status != 200 {
      return "", false, store;
    }
    var gz := outDir + "/" + tmpName;
    var written := store[gz := fetch.content];
    var out := outDir + "/" + outputFileName;
    var code;
    code, after := GzipExtract(written, inflate, gz, out, ReadBlockSize);
    if code != 0 {
      return "", false, after;
    }
    after := after - {gz};
    path := out;
    backedOff := false;
  }

  // ---------------------------------------------------------------------
  // Index catalog resolver
  // ---------------------------------------------------------------------

  /** One element of the catalog's JSON array; a field is None when the key
      is missing or its value is not a string. */
  datatype Row = Row(name: Option<string>, id: Option<string>)

  /** What `json.loads` made of the catalog document. */
  datatype CatalogJson = NotJson | Rows(rows: seq<Row>)

  /** What `get_index_urls` came to: it raised (a row without a usable name
      or id), or it returned a dict from index name to manifest URL. */
  datatype Catalog = CatalogRaised | Urls(index: Dict<string, string>)

  /** A row is complete when both lookups succeed. */
  predicate Complete(row: Row)
  {
    row.name.Some? && row.id.Some?
  }

  /** The catalog name made filesystem safe: spaces and slashes become "_". */
  function Sanitise(name: string): (r: string)
    ensures |r| == |name| && ' ' !in r && '/' !in r
    ensures forall i :: 0 <= i < |name| ==> r[i] == if name[i] == ' ' || name[i] == '/' then '_' else name[i]
  {
    Replace(Replace(name, ' ', '_'), '/', '_')
  }

  /** The two halves of a URL template around its "ID" marker:
      `t.split("ID")[0]` and `t.split("ID")[1].strip("\n")`. */
  function TemplateHalves(t: string): (string, string)
    requires |Split(t, "ID")| >= 2
  {
    var parts := Split(t, "ID");
    (parts[0], Strip(parts[1], '\n'))
  }

  /** The newer template splits into the crawl-data prefix and the manifest
      suffix. */
  lemma CatalogTemplate()
    ensures |Split(IndexPathsUrl, "ID")| >= 2
    ensures TemplateHalves(IndexPathsUrl) == (IndexHost + "crawl-data/", "/cc-index.paths.gz")
  {
    IndexPathsUrlParts();
    NoMarkerLetter();
    TemplateSplits(IndexHost + "crawl-data/", "/cc-index.paths.gz");
  }

  lemma IndexPathsUrlParts()
    ensures IndexPathsUrl == (IndexHost + "crawl-data/") + "ID" + "/cc-index.paths.gz"
  {
    assert IndexPath == "crawl-data/" + "ID" + "/cc-index.paths.gz";
  }

  lemma NoMarkerLetter()
    ensures 'I' !in IndexHost + "crawl-data/" && 'I' !in "/cc-index.paths.gz"
  {
    assert 'I' !in IndexHost && 'I' !in "crawl-data/";
  }

  /** A template `a + "ID" + b` with no "I" in `a` or `b` and no newline at
      either end of `b` splits into `a` and `b`. */
  lemma TemplateSplits(a: string, b: string)
    requires 'I' !in a && 'I' !in b
    requires |b| == 0 || (b[0] != '\n' && b[|b| - 1] != '\n')
    ensures |Split(a + "ID" + b, "ID")| >= 2
    ensures TemplateHalves(a + "ID" + b) == (a, b)
  {
    SplitAfterFree(a, "ID", b);
    SplitFree(b, "ID");
    StripUntouched(b, '\n');
  }

  /** The dict `get_index_urls` builds from `rows`, row by row: each complete
      row maps its sanitised name to `prefix + id + suffix`, the first
      incomplete row raises. */
  function IndexOf(rows: seq<Row>, prefix: string, suffix: string): (c: Catalog)
    ensures c.Urls? ==> c.index.Valid()
    decreases |rows|
  {
    if rows == [] then Urls(EmptyDict())
    else
      match IndexOf(rows[..|rows| - 1], prefix, suffix)
      case CatalogRaised => CatalogRaised
      case Urls(d) =>
        var row := rows[|rows| - 1];
        if !Complete(row) then CatalogRaised
        else Urls(Put(d, Sanitise(row.name.value), prefix + row.id.value + suffix))
  }

  /** The loop of `get_index_urls` that fills `out`. */
  method FillIndex(rows: seq<Row>, prefix: string, suffix: string) returns (c: Catalog)
    ensures c == IndexOf(rows, prefix, suffix)
  {
    var out: Dict<string, string> := EmptyDict();
    var i := 0;
    while i < |rows|
      invariant i <= |rows|
      invariant IndexOf(rows[..i], prefix, suffix) == Urls(out)
    {
      assert rows[..i + 1][..i] == rows[..i];
      var row := rows[i];
      if row.name.None? || row.id.None? {
        assert IndexOf(rows[..i + 1], prefix, suffix) == CatalogRaised;
        IndexRaisedSticks(rows, i + 1, prefix, suffix);
        return CatalogRaised;
      }
      out := Put(out, Sanitise(row.name.value), prefix + row.id.value + suffix);
      i := i + 1;
    }
    assert rows[..i] == rows;
    c := Urls(out);
  }

  /** Once a prefix of the rows raises, so do all the rows. */
  lemma {:induction false} IndexRaisedSticks(rows: seq<Row>, n: nat, prefix: string, suffix: string)
    requires n <= |rows| && IndexOf(rows[..n], prefix, suffix) == CatalogRaised
    ensures IndexOf(rows, prefix, suffix) == CatalogRaised
    decreases |rows| - n
  {
    if n < |rows| {
      assert rows[..n + 1][..n] == rows[..n];
      IndexRaisedSticks(rows, n + 1, prefix, suffix);
    } else {
      assert rows[..n] == rows;
    }
  }

  /** The dict raises exactly when some row is incomplete. */
  lemma {:induction false} IndexRaisedIff(rows: seq<Row>, prefix: string, suffix: string)
    ensures IndexOf(rows, prefix, suffix) == CatalogRaised
        <==> exists i :: 0 <= i < |rows| && !Complete(rows[i])
    decreases |rows|
  {
    if rows != [] {
      var init := rows[..|rows| - 1];
      IndexRaisedIff(init, prefix, suffix);
      if exists i :: 0 <= i < |init| && !Complete(init[i]) {
        var i :| 0 <= i < |init| && !Complete(init[i]);
        assert rows[i] == init[i];
      }
      if exists i :: 0 <= i < |rows| && !Complete(rows[i]) {
        var i :| 0 <= i < |rows| && !Complete(rows[i]);
        if i < |init| { assert init[i] == rows[i]; }
      }
    }
  }

  /** Every key of the dict is the sanitised name of some row, so it holds
      no space and no slash. */
  lemma {:induction false} IndexKeysAreSanitisedNames(rows: seq<Row>, prefix: string, suffix: string, k: string)
    requires IndexOf(rows, prefix, suffix).Urls?
    requires k in IndexOf(rows, prefix, suffix).index.values
    ensures exists i :: 0 <= i < |rows| && Complete(rows[i]) && Sanitise(rows[i].name.value) == k
    ensures ' ' !in k && '/' !in k
    decreases |rows|
  {
    var init := rows[..|rows| - 1];
    var last := rows[|rows| - 1];
    var d := IndexOf(init, prefix, suffix).index;
    if k == Sanitise(last.name.value) {
      assert Complete(rows[|rows| - 1]);
    } else {
      assert k in d.values;
      IndexKeysAreSanitisedNames(init, prefix, suffix, k);
      var i :| 0 <= i < |init| && Complete(init[i]) && Sanitise(init[i].name.value) == k;
      assert rows[i] == init[i];
    }
  }

  /** A later row with the same sanitised name overwrites an earlier one:
      the URL kept for a name is the one built from the last row bearing it. */
  lemma {:induction false} LastRowWins(rows: seq<Row>, prefix: string, suffix: string, i: nat)
    requires IndexOf(rows, prefix, suffix).Urls?
    requires i < |rows|
    requires Complete(rows[i])
    requires forall j :: i < j < |rows| && Complete(rows[j]) ==>
               Sanitise(rows[j].name.value) != Sanitise(rows[i].name.value)
    ensures var d := IndexOf(rows, prefix, suffix).index;
      var k := Sanitise(rows[i].name.value);
      k in d.values && d.values[k] == prefix + rows[i].id.value + suffix
    decreases |rows|
  {
    var init := rows[..|rows| - 1];
    if i < |rows| - 1 {
      assert init[i] == rows[i];
      assert Complete(rows[|rows| - 1]);
      forall j | i < j < |init| && Complete(init[j])
        ensures Sanitise(init[j].name.value) != Sanitise(init[i].name.value)
      {
        assert init[j] == rows[j];
      }
      LastRowWins(init, prefix, suffix, i);
    }
  }

  /** `get_index_urls`: fetch the catalog, and on a 200 response that parses
      build the dict from its rows with the newer template's halves. An
      exception, another status or an unparsable body give `{}`. */
  method GetIndexUrls(fetch: Fetch, parse: Bytes -> CatalogJson) returns (c: Catalog)
    ensures fetch.Failed? || fetch.status != 200 || parse(fetch.content).NotJson? ==>
      c == Urls(EmptyDict())
    ensures fetch.Response? && fetch.status == 200 && parse(fetch.content).Rows? ==>
      c == IndexOf(parse(fetch.content).rows,
                   IndexHost + "crawl-data/", "/cc-index.paths.gz")
  {
    if fetch.Failed? || fetch.status != 200 {
      return Urls(EmptyDict());
    }
    var json := parse(fetch.content);
    if json.NotJson? {
      return Urls(EmptyDict());
    }
    CatalogTemplate();
    var halves := TemplateHalves(IndexPathsUrl);
    c := FillIndex(json.rows, halves.0, halves.1);
  }

  // ---------------------------------------------------------------------
  // Content store
  // ---------------------------------------------------------------------

  /** The temporary file name: the URL's last "/" segment, or "tmp" when the
      URL ends with "/". */
  function TempName(url: string): (name: string)
    ensures |name| > 0 && '/' !in name
    ensures LastSegment(url, '/') != "" ==> name == LastSegment(url, '/')
  {
    SplitPiecesFree(url, '/');
    var last := LastSegment(url, '/');
    if last == "" then "tmp" else last
  }

  /** Where `save_file` keeps `content`: named by its md5 and the file type,
      whatever URL it was fetched from. */
  function StoredPath(dir: string, md5Hex: Bytes -> string, content: Bytes, filetype: string): string
  {
    dir + md5Hex(content) + "." + filetype
  }

  /** The disk after a successful `save_file`: the temporary copy is written
      and removed, and the content is written under its hash name. */
  function SaveEffect(store: Store, tmp: string, stored: string, content: Bytes): (after: Store)
    ensures stored in after && after[stored] == content
    ensures tmp != stored ==> tmp !in after
    ensures forall p :: p in store && p != tmp && p != stored ==> p in after && after[p] == store[p]
    ensures forall p :: p in after ==> p in store || p == stored
  {
    (store[tmp := content] - {tmp})[stored := content]
  }

  /** Saving bytes the store already holds under their hash name, through a
      temporary name that is neither an existing file nor the hash name,
      leaves the disk as it was: identical content is stored once. */
  lemma ResaveIsNoOp(store: Store, tmp: string, stored: string, content: Bytes)
    requires stored in store && store[stored] == content
    requires tmp !in store && tmp != stored
    ensures SaveEffect(store, tmp, stored, content) == store
  {
    var after := SaveEffect(store, tmp, stored, content);
    assert after.Keys == store.Keys;
  }

  /** `save_file`: make `outDir` end with "/", fetch the URL, keep the body
      under a temporary name, read it back through md5, remove the temporary
      copy and write the body as `outDir + md5 + "." + filetype`. An
      exception or a status other than 200 returns -1 and writes nothing;
      success returns 0 (not the path the doc comment promises). An empty
      `outDir` makes `out_dir[-1]` raise. */
  method SaveFile(store: Store, md5Hex: Bytes -> string, url: string, outDir: string,
                  filetype: string, fetch: Fetch)
    returns (outcome: Saved, after: Store)
    ensures outDir == "" ==> outcome == Raised && after == store
    ensures outDir != "" && (fetch.Failed? || fetch.status != 200) ==>
      outcome == Returned(-1) && after == store
    ensures outDir != "" && fetch.Response? && fetch.status == 200 ==>
      var dir := WithTrailingSlash(outDir);
      && outcome == Returned(0)
      && after == SaveEffect(store, dir + TempName(url),
                             StoredPath(dir, md5Hex, fetch.content, filetype), fetch.content)
  {
    if outDir == "" {
      return Raised, store;
    }
    var dir := WithTrailingSlash(outDir);
    if fetch.Failed? || fetch.status != 200 {
      return Returned(-1), store;
    }
    var tmp := dir + TempName(url);
    var disk := store[tmp := fetch.content];
    var absorbed := DigestInput(disk[tmp]);
    disk := disk - {tmp};
    var filename := md5Hex(absorbed);
    disk := disk[dir + filename + "." + filetype := fetch.content];
    return Returned(0), disk;
  }
}
