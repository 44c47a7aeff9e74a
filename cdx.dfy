/** What a shard worker does with one line of a CDX shard before deciding to
    download: cut out the JSON payload, pull out the fields it needs, and
    test the record against one category's rule from the type-rule config.
    The code is the same in src/ftf.py and filetypefetcher/ftf.py.

    `json.loads` is not modelled: the caller hands in what it made of the
    payload, as a `Parsed` value. */
module Cdx {
  import opened Py

  /** A JSON value as far as the matching needs it: null, a string, or some
      other value, kept by its JSON text so that equal values compare equal. */
  datatype Json = Null | Str(s: string) | Other(text: string)

  /** What `json.loads` made of a payload: an object, or anything it raised
      on or that cannot be subscripted with a string key. */
  datatype Parsed = Unparsable | Object(fields: map<string, Json>)

  /** The two fields a record that passes the filter is matched on. */
  datatype Record = Record(mime: Json, url: string)

  /** `"{" + line.split("{")[1]`: None where Python raises IndexError, that is
      where the line holds no "{". */
  function Payload(line: string): (p: Option<string>)
    ensures p.None? <==> '{' !in line
  {
    SplitHasSecond(line, '{');
    var parts := Split(line, "{");
    if |parts| < 2 then None else Some("{" + parts[1])
  }

  /** The payload is the text from the first "{" up to, not including, the
      second "{" (or the end of the line). */
  lemma PayloadIsFirstObjectText(line: string)
    requires '{' in line
    ensures Payload(line).Some?
    ensures Payload(line).value[0] == '{' && '{' !in Payload(line).value[1..]
    ensures exists a, rest :: Around(line, a, Payload(line).value, rest)
  {
    SplitHasSecond(line, '{');
    var parts := Split(line, "{");
    var p := "{" + parts[1];
    assert Payload(line) == Some(p);
    assert p[1..] == parts[1];
    SplitPiecesFree(line, '{');
    assert parts[0] in parts && parts[1] in parts;
    var rest := if |parts| == 2 then "" else "{" + Join(parts[2..], "{");
    assert line == parts[0] + p + rest by {
      JoinSplit(line, "{");
      JoinFirstTwo(parts, "{");
    }
    assert '{' !in parts[0];
    assert rest == "" || rest[0] == '{';
    assert Around(line, parts[0], p, rest);
  }

  /** `line` is `a + p + rest`, with no "{" before `p` and `rest` empty or
      starting at the next "{". */
  predicate Around(line: string, a: string, p: string, rest: string)
  {
    line == a + p + rest && '{' !in a && (rest == "" || rest[0] == '{')
  }

  /** Joining two or more pieces: the first, the separator, the second, and
      the rest behind one more separator. */
  lemma JoinFirstTwo(parts: seq<string>, sep: string)
    requires |parts| >= 2
    ensures Join(parts, sep) == parts[0] + sep + parts[1]
                                + (if |parts| == 2 then "" else sep + Join(parts[2..], sep))
  {
    assert parts[1..][0] == parts[1];
    if |parts| > 2 {
      assert parts[1..][1..] == parts[2..];
    }
  }

  /** The fields of a "200" record, or None when the line is skipped: a key is
      missing, the URL is not a string (its `split` raises), or the status is
      not the string "200". This is the reference definition of the skip
      rule; the worker loops use it through `UnusableRecordSkipped` and
      `MalformedLineTransparent`. */
  function RecordOf(parsed: Parsed): (r: Option<Record>)
    ensures r.Some? <==>
      && parsed.Object?
      && "mime-detected" in parsed.fields
      && "url" in parsed.fields && parsed.fields["url"].Str?
      && "status" in parsed.fields && parsed.fields["status"] == Str("200")
    ensures r.Some? ==> r.value == Record(parsed.fields["mime-detected"], parsed.fields["url"].s)
  {
    match parsed
    case Unparsable => None
    case Object(f) =>
      if "mime-detected" !in f || "url" !in f || "status" !in f then None
      else if !f["url"].Str? then None
      else if f["status"] != Str("200") then None
      else Some(Record(f["mime-detected"], f["url"].s))
  }

  /** `"." + url.split(".")[-1]`: the text after the last dot, with a dot in
      front; the whole URL after a dot when it has none. */
  function Extension(url: string): (ext: string)
    ensures |ext| > 0 && ext[0] == '.' && '.' !in ext[1..]
  {
    SplitPiecesFree(url, '.');
    "." + LastSegment(url, '.')
  }

  /** One category's entry in the type-rule config. `Entry` holds what the
      lookups `info["mime-detected"]` and `info["ext"]` find (None: KeyError);
      `Unusable` is an entry whose lookup raises anything else (it is not an
      object). */
  datatype ConfigEntry = Entry(mime: Option<Json>, ext: Option<seq<string>>) | Unusable

  type Config = map<string, ConfigEntry>

  /** What a category is matched with: `target_mime` and `target_exts`. */
  datatype Target = Target(mime: Json, exts: seq<string>)

  /** The config lookup for `filetype`: any KeyError falls back to no mime and
      the bare category name as the only extension; an unusable entry skips
      the category. */
  function TargetFor(config: Config, filetype: string): Option<Target>
  {
    if filetype !in config then Some(Target(Null, [filetype]))
    else match config[filetype]
      case Unusable => None
      case Entry(m, e) =>
        if m.None? || e.None? then Some(Target(Null, [filetype]))
        else Some(Target(m.value, e.value))
  }

  /** `target_mime == cdx_mime`, or else `target_mime is None and cdx_ext in
      target_exts`. */
  predicate Matches(t: Target, r: Record)
  {
    t.mime == r.mime || (t.mime == Null && Extension(r.url) in t.exts)
  }

  /** Whether a worker saves the record for `filetype`, whose count is
      `count`: the quota is not met, the config entry is usable and the rule
      matches. */
  predicate Takes(config: Config, limit: int, filetype: string, count: int, rec: Record)
  {
    && count < limit
    && TargetFor(config, filetype).Some?
    && Matches(TargetFor(config, filetype).value, rec)
  }

  /** A rule with a mime type never matches a record whose detected mime
      differs, whatever its extension. */
  lemma MimePrecedence(t: Target, r: Record)
    requires t.mime != Null && r.mime != t.mime
    ensures !Matches(t, r)
  {
  }

  /** A rule without a mime type matches a record with a non-null detected
      mime exactly when the record's extension is listed. */
  lemma ExtensionFallback(t: Target, r: Record)
    requires t.mime == Null && r.mime != Null
    ensures Matches(t, r) <==> Extension(r.url) in t.exts
  {
  }

  /** Python's `None == None`: a rule without a mime type matches a record
      whose mime-detected is JSON null, whatever its extension. */
  lemma NullMimeMatchesNoMimeRule(t: Target, r: Record)
    requires t.mime == Null && r.mime == Null
    ensures Matches(t, r)
  {
  }

  /** A category missing from the config has `[filetype]` as its extension
      list, without a dot, so the extension test can only succeed when the
      category name itself starts with a dot; for any other name only a null
      detected mime matches. */
  lemma MissingConfigMatchesOnlyNullMime(config: Config, filetype: string, r: Record)
    requires filetype !in config
    requires |filetype| == 0 || filetype[0] != '.'
    ensures TargetFor(config, filetype).Some?
    ensures Matches(TargetFor(config, filetype).value, r) <==> r.mime == Null
  {
    var ext := Extension(r.url);
    assert ext[0] == '.';
    assert ext != filetype;
  }

  /** `all(count >= limit for count in file_counts.values())` */
  predicate AllAtLimit(counts: Dict<string, int>, limit: int)
  {
    forall k :: k in counts.values ==> counts.values[k] >= limit
  }

  /** The shared `file_counts` dict (a `Manager().dict()`): category to the
      number of files saved so far. */
  class FileCounts {
    var items: Dict<string, int>

    constructor (initial: Dict<string, int>)
      ensures items == initial
    {
      items := initial;
    }

    /** `file_counts[k] = v` */
    method Set(k: string, v: int)
      modifies this
      ensures items == Put(old(items), k, v)
    {
      items := Put(items, k, v);
    }
  }

  /** The count map `main` starts from: every requested file type at 0, set
      one after the other, so a repeated type is one key. */
  function Zeros(filetypes: seq<string>): (d: Dict<string, int>)
    ensures d.Valid()
    decreases |filetypes|
  {
    if filetypes == [] then EmptyDict()
    else Put(Zeros(filetypes[..|filetypes| - 1]), filetypes[|filetypes| - 1], 0)
  }

  /** Every requested file type, and nothing else, is a key, with count 0. */
  lemma {:induction false} ZerosMapsEveryTypeToZero(filetypes: seq<string>)
    ensures Zeros(filetypes).values == map ext | ext in filetypes :: 0
    decreases |filetypes|
  {
    if filetypes != [] {
      var init := filetypes[..|filetypes| - 1];
      ZerosMapsEveryTypeToZero(init);
      assert filetypes == init + [filetypes[|filetypes| - 1]];
    }
  }

  /** The loop `for extension in filetypes: file_counts[extension] = 0`. */
  method ZeroCounts(filetypes: seq<string>) returns (d: Dict<string, int>)
    ensures d == Zeros(filetypes)
  {
    d := EmptyDict();
    var i := 0;
    while i < |filetypes|
      invariant i <= |filetypes| && d == Zeros(filetypes[..i])
    {
      assert filetypes[..i + 1][..i] == filetypes[..i];
      d := Put(d, filetypes[i], 0);
      i := i + 1;
    }
    assert filetypes[..i] == filetypes;
  }
}
