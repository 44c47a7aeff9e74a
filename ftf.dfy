/** The harvester of src/ftf.py: `fetch_files_in_cdx`, the worker that reads
    one CDX shard and saves matching records; `run_batch`, which joins a
    batch of workers; and `main`, which walks the crawl catalog and starts
    the batches.

    The worker process is modelled on its own: what it downloads, how each
    `save_file` call ends and what `json.loads` and `urlparse` make of a
    value are inputs. The other workers of a batch and the file system are
    outside the model; `main` sees a batch only through its exit codes and
    the counts the shared dict holds afterwards. */
module Ftf {
  import opened Py
  import opened Web
  import opened Cdx
  import opened Manifest

  /** What the record loop of one worker carries: the shared `file_counts`,
      the process's `tol_dict` (hostname to failed saves; a hostname can be
      None) and the number of `save_file` calls made so far. */
  datatype Tally = Tally(counts: Dict<string, int>, fails: map<Option<string>, int>, calls: nat)

  /** What a worker is given: the type-rule config, `limit`, `tol`, and the
      outcomes of the calls it makes: `json.loads` on a payload,
      `urlparse(url).hostname`, and the k-th `save_file` call (from 0). */
  datatype Context = Context(config: Config, limit: int, tol: int,
                             parse: string -> Parsed,
                             hostOf: string -> Option<string>,
                             saves: nat -> Saved)

  /** Where the record loop stands: it goes on, it has met every quota
      (`exit(0)`), or an exception escaped it; in each case with the state
      reached. */
  datatype Flow = Continue(t: Tally) | Done(t: Tally) | Crash(t: Tally)

  /** One file type tried against one record: skipped when its quota is met,
      when its config entry is unusable or when the rule does not match; else
      one `save_file` call, which adds one to the type's count when it returns
      0 and one to the host's failures when it returns anything else. */
  function TryCategory(ctx: Context, filetype: string, t: Tally, rec: Record, host: Option<string>): (f: Flow)
    requires host in t.fails
    ensures !f.Done?
    ensures f.t.counts.keys == t.counts.keys && f.t.counts.values.Keys == t.counts.values.Keys
    ensures f.t.fails.Keys == t.fails.Keys
    ensures filetype in t.counts.values && !Wants(ctx, filetype, t.counts.values[filetype], rec) ==>
      f == Continue(t)
    ensures filetype in t.counts.values && Wants(ctx, filetype, t.counts.values[filetype], rec) ==>
      && (SaveAt(ctx, t.calls) == Raised ==> f == Crash(t))
      && (SaveAt(ctx, t.calls) == Returned(0) ==>
            f.Continue? && f.t.counts.values == t.counts.values[filetype := t.counts.values[filetype] + 1]
            && f.t.fails == t.fails && f.t.calls == t.calls + 1)
      && (SaveAt(ctx, t.calls).Returned? && SaveAt(ctx, t.calls).code != 0 ==>
            f == Continue(t.(fails := t.fails[host := t.fails[host] + 1], calls := t.calls + 1)))
  {
    // Not reached: the types tried are the keys of the counts.
    if filetype !in t.counts.values then Continue(t) else
    var count := t.counts.values[filetype];
    if !Wants(ctx, filetype, count, rec) then Continue(t)
    else match SaveAt(ctx, t.calls)
      case Raised => Crash(t)
      case Returned(code) =>
        if code == 0 then Continue(Tally(Put(t.counts, filetype, count + 1), t.fails, t.calls + 1))
        else Continue(Tally(t.counts, t.fails[host := t.fails[host] + 1], t.calls + 1))
  }

  /** How the `k`-th `save_file` call of the worker ends. */
  function SaveAt(ctx: Context, k: nat): Saved
  {
    ctx.saves(k)
  }

  /** Whether a record is saved for `filetype`: its quota is not yet met,
      its config entry is usable and the rule matches. */
  predicate Wants(ctx: Context, filetype: string, count: int, rec: Record)
  {
    Takes(ctx.config, ctx.limit, filetype, count, rec)
  }

  /** The file types of `keys` tried in order, stopping at an exception. */
  function TryCategories(ctx: Context, keys: seq<string>, t: Tally, rec: Record, host: Option<string>): (f: Flow)
    requires host in t.fails
    ensures !f.Done?
    ensures f.t.counts.keys == t.counts.keys && f.t.counts.values.Keys == t.counts.values.Keys
    ensures f.t.fails.Keys == t.fails.Keys
    decreases |keys|
  {
    if keys == [] then Continue(t)
    else
      var f1 := TryCategories(ctx, keys[..|keys| - 1], t, rec, host);
      if f1.Continue? then TryCategory(ctx, keys[|keys| - 1], f1.t, rec, host) else f1
  }

  /** A host that failed more than `tol` times is not tried again. */
  predicate Excluded(ctx: Context, fails: map<Option<string>, int>, host: Option<string>)
  {
    host in fails && fails[host] > ctx.tol
  }

  /** One shard line: a line without "{" raises outside any handler; a line
      whose record is unusable or not a "200" is skipped, and so is a record
      from an excluded host; a host seen for the first time starts at 0
      failures; then every category is tried, and the quota test ends the
      worker once every count is at `limit`. */
  function Step(ctx: Context, line: string, t: Tally): (f: Flow)
    requires t.counts.Valid()
    ensures f.t.counts.Valid() && f.t.counts.keys == t.counts.keys
  {
    match Payload(line)
    case None => Crash(t)
    case Some(p) =>
      match RecordOf(ctx.parse(p))
      case None => Continue(t)
      case Some(rec) =>
        var host := ctx.hostOf(rec.url);
        if Excluded(ctx, t.fails, host) then Continue(t)
        else
          var t1 := if host in t.fails then t else t.(fails := t.fails[host := 0]);
          var f2 := TryCategories(ctx, t.counts.keys, t1, rec, host);
          if !f2.Continue? then f2
          else if AllAtLimit(f2.t.counts, ctx.limit) then Done(f2.t)
          else f2
  }

  /** The lines of a shard read in order from `t0`, up to the first line that
      ends the worker. */
  function RunLines(ctx: Context, lines: seq<string>, t0: Tally): (f: Flow)
    requires t0.counts.Valid()
    ensures f.t.counts.Valid() && f.t.counts.keys == t0.counts.keys
    decreases |lines|
  {
    if lines == [] then Continue(t0)
    else
      var f1 := RunLines(ctx, lines[..|lines| - 1], t0);
      if f1.Continue? then Step(ctx, lines[|lines| - 1], f1.t) else f1
  }

  /** How a worker process ends: `exit(code)`, or an exception nobody caught,
      which the process reports as exit code 1. */
  datatype WorkerEnd = Exit(code: int) | Uncaught

  function ExitCode(e: WorkerEnd): int
  {
    match e
    case Exit(c) => c
    case Uncaught => 1
  }

  /** What opening and parsing `filetype_config.json` gives. */
  datatype ConfigFile = NoConfigFile | BadConfigJson | ConfigJson(config: Config)

  /** Once the loop has stopped on a prefix, more lines change nothing. */
  lemma {:induction false} RunLinesStops(ctx: Context, lines: seq<string>, n: nat, t0: Tally)
    requires t0.counts.Valid() && n <= |lines|
    requires !RunLines(ctx, lines[..n], t0).Continue?
    ensures RunLines(ctx, lines, t0) == RunLines(ctx, lines[..n], t0)
    decreases |lines| - n
  {
    if n < |lines| {
      assert lines[..n + 1][..n] == lines[..n];
      RunLinesStops(ctx, lines, n + 1, t0);
    } else {
      assert lines[..n] == lines;
    }
  }

  /** Once the categories have stopped on a prefix, the rest are not tried. */
  lemma {:induction false} TryCategoriesStops(ctx: Context, keys: seq<string>, n: nat, t: Tally, rec: Record, host: Option<string>)
    requires host in t.fails
    requires n <= |keys| && !TryCategories(ctx, keys[..n], t, rec, host).Continue?
    ensures TryCategories(ctx, keys, t, rec, host) == TryCategories(ctx, keys[..n], t, rec, host)
    decreases |keys| - n
  {
    if n < |keys| {
      assert keys[..n + 1][..n] == keys[..n];
      TryCategoriesStops(ctx, keys, n + 1, t, rec, host);
    } else {
      assert keys[..n] == keys;
    }
  }

  /** `fetch_files_in_cdx`: `shard` is the unpacked shard's lines, None when
      `download_and_ungzip` returned "". A failed download and a config file
      that cannot be opened or parsed end the worker with `exit(1)` and
      nothing counted; otherwise the counts are those the record loop reaches,
      and the worker ends with `exit(0)` unless an exception escaped. */
  method FetchFilesInCdx(fc: FileCounts, shard: Option<seq<string>>, configFile: ConfigFile,
                         limit: int, tol: int, parse: string -> Parsed,
                         hostOf: string -> Option<string>, saves: nat -> Saved)
    returns (end: WorkerEnd)
    requires fc.items.Valid()
    modifies fc
    ensures fc.items.Valid() && fc.items.keys == old(fc.items.keys)
    ensures shard.None? || !configFile.ConfigJson? ==> end == Exit(1) && fc.items == old(fc.items)
    ensures shard.Some? && configFile.ConfigJson? ==>
      var f := RunLines(Context(configFile.config, limit, tol, parse, hostOf, saves),
                        shard.value, Tally(old(fc.items), map[], 0));
      fc.items == f.t.counts && end == (if f.Crash? then Uncaught else Exit(0))
  {
    if shard.None? {
      return Exit(1);
    }
    if !configFile.ConfigJson? {
      return Exit(1);
    }
    var ctx := Context(configFile.config, limit, tol, parse, hostOf, saves);
    var lines := shard.value;
    ghost var t0 := Tally(fc.items, map[], 0);
    var tolDict: map<Option<string>, int> := map[];
    var calls: nat := 0;
    var i := 0;
    while i < |lines|
      invariant i <= |lines|
      invariant fc.items.Valid() && fc.items.keys == t0.counts.keys
      invariant RunLines(ctx, lines[..i], t0) == Continue(Tally(fc.items, tolDict, calls))
    {
      RunLinesNext(ctx, lines, i, t0, Tally(fc.items, tolDict, calls));
      var stop;
      stop, tolDict, calls := ProcessLine(fc, ctx, lines[i], tolDict, calls);
      if stop.Some? {
        RunLinesStops(ctx, lines, i + 1, t0);
        return stop.value;
      }
      i := i + 1;
    }
    assert lines[..i] == lines;
    return Exit(0);
  }

  /** One more line read after a prefix that went on with `t`. */
  lemma RunLinesNext(ctx: Context, lines: seq<string>, i: nat, t0: Tally, t: Tally)
    requires t0.counts.Valid() && i < |lines|
    requires RunLines(ctx, lines[..i], t0) == Continue(t)
    ensures t.counts.Valid()
    ensures RunLines(ctx, lines[..i + 1], t0) == Step(ctx, lines[i], t)
  {
    assert lines[..i + 1][..i] == lines[..i];
  }

  /** The body of the record loop, for one line: it changes the shared counts
      and hands back the new `tol_dict` and call count; `stop` is how the
      worker ends on this line, None when it reads on. */
  method ProcessLine(fc: FileCounts, ctx: Context, line: string,
                     tolDict0: map<Option<string>, int>, calls0: nat)
    returns (stop: Option<WorkerEnd>, tolDict: map<Option<string>, int>, calls: nat)
    requires fc.items.Valid()
    modifies fc
    ensures var f := Step(ctx, line, Tally(old(fc.items), tolDict0, calls0));
      && Tally(fc.items, tolDict, calls) == f.t
      && (stop.None? <==> f.Continue?)
      && (f.Done? ==> stop == Some(Exit(0)))
      && (f.Crash? ==> stop == Some(Uncaught))
  {
    tolDict, calls := tolDict0, calls0;
    var payload := Payload(line);
    if payload.None? {
      return Some(Uncaught), tolDict, calls;
    }
    var rec := RecordOf(ctx.parse(payload.value));
    if rec.None? {
      return None, tolDict, calls;
    }
    var host := ctx.hostOf(rec.value.url);
    if host in tolDict && tolDict[host] > ctx.tol {
      return None, tolDict, calls;
    }
    if host !in tolDict {
      tolDict := tolDict[host := 0];
    }
    var crashed;
    crashed, tolDict, calls := TryAllCategories(fc, ctx, rec.value, host, tolDict, calls);
    if crashed {
      return Some(Uncaught), tolDict, calls;
    }
    if AllAtLimit(fc.items, ctx.limit) {
      return Some(Exit(0)), tolDict, calls;
    }
    return None, tolDict, calls;
  }

  /** The loop `for filetype in file_counts.keys()` of one record, over the
      keys as they were when it started. It changes the shared counts and
      hands back the new `tol_dict` and call count; `crashed` is `save_file`
      raising. */
  method TryAllCategories(fc: FileCounts, ctx: Context, rec: Record, host: Option<string>,
                          tolDict0: map<Option<string>, int>, calls0: nat)
    returns (crashed: bool, tolDict: map<Option<string>, int>, calls: nat)
    requires host in tolDict0
    modifies fc
    ensures var f := TryCategories(ctx, old(fc.items).keys, Tally(old(fc.items), tolDict0, calls0), rec, host);
      && crashed == f.Crash?
      && Tally(fc.items, tolDict, calls) == f.t
  {
    ghost var t1 := Tally(fc.items, tolDict0, calls0);
    tolDict, calls := tolDict0, calls0;
    var keys := fc.items.keys;
    var j := 0;
    while j < |keys|
      invariant j <= |keys|
      invariant fc.items.keys == keys && fc.items.values.Keys == t1.counts.values.Keys && host in tolDict
      invariant TryCategories(ctx, keys[..j], t1, rec, host) == Continue(Tally(fc.items, tolDict, calls))
    {
      ghost var t := Tally(fc.items, tolDict, calls);
      TryCategoriesNext(ctx, keys, j, t1, rec, host, t);
      crashed, tolDict, calls := TryCategoryOnce(fc, ctx, keys[j], rec, host, tolDict, calls);
      if crashed {
        TryCategoriesStops(ctx, keys, j + 1, t1, rec, host);
        return;
      }
      j := j + 1;
    }
    assert keys[..j] == keys;
    return false, tolDict, calls;
  }

  /** The body of the loop over the file types, for one type: it changes
      the shared counts and hands back the new `tol_dict` and call count;
      `crashed` is `save_file` raising. */
  method TryCategoryOnce(fc: FileCounts, ctx: Context, filetype: string, rec: Record,
                         host: Option<string>, tolDict0: map<Option<string>, int>, calls0: nat)
    returns (crashed: bool, tolDict: map<Option<string>, int>, calls: nat)
    requires host in tolDict0
    modifies fc
    ensures var f := TryCategory(ctx, filetype, Tally(old(fc.items), tolDict0, calls0), rec, host);
      crashed == f.Crash? && Tally(fc.items, tolDict, calls) == f.t
  {
    tolDict, calls := tolDict0, calls0;
    if filetype !in fc.items.values {
      return false, tolDict, calls;
    }
    var count := fc.items.values[filetype];
    if Wants(ctx, filetype, count, rec) {
      var saved := SaveAt(ctx, calls);
      if saved.Raised? {
        return true, tolDict, calls;
      }
      if saved.code == 0 {
        fc.Set(filetype, count + 1);
      } else {
        tolDict := tolDict[host := tolDict[host] + 1];
      }
      calls := calls + 1;
    }
    return false, tolDict, calls;
  }

  /** One more category tried after a prefix that went on from `t`. */
  lemma TryCategoriesNext(ctx: Context, keys: seq<string>, j: nat, t1: Tally, rec: Record,
                          host: Option<string>, t: Tally)
    requires host in t1.fails
    requires j < |keys| && TryCategories(ctx, keys[..j], t1, rec, host) == Continue(t)
    ensures host in t.fails
    ensures TryCategories(ctx, keys[..j + 1], t1, rec, host) == TryCategory(ctx, keys[j], t, rec, host)
  {
    assert keys[..j + 1][..j] == keys[..j];
  }


  // ---------------------------------------------------------------------
  // Properties of the record loop

  /** A line without "{" kills the worker with the state it had. */
  lemma LineWithoutBraceCrashes(ctx: Context, line: string, t: Tally)
    requires t.counts.Valid() && '{' !in line
    ensures Step(ctx, line, t) == Crash(t)
  {
  }

  /** A record whose payload does not parse, lacks a field, has a URL that is
      not a string or a status other than "200" changes nothing, and the
      loop goes on; in particular the quota test is not made. */
  lemma UnusableRecordSkipped(ctx: Context, line: string, t: Tally)
    requires t.counts.Valid() && '{' in line
    requires RecordOf(ctx.parse(Payload(line).value)).None?
    ensures Step(ctx, line, t) == Continue(t)
  {
  }

  /** A record from a host that failed more than `tol` times is skipped
      before any category is tried: no save, no change. */
  lemma ExcludedHostSkipped(ctx: Context, line: string, t: Tally)
    requires t.counts.Valid() && '{' in line
    requires RecordOf(ctx.parse(Payload(line).value)).Some?
    requires Excluded(ctx, t.fails, ctx.hostOf(RecordOf(ctx.parse(Payload(line).value)).value.url))
    ensures Step(ctx, line, t) == Continue(t)
  {
  }

  /** A usable record from a host not seen before enters the host in
      `tol_dict` at 0 before any category is tried: the categories are tried
      from `t1`, the state with that entry added, and the host stays
      entered whatever the saves do. */
  lemma NewHostEntered(ctx: Context, line: string, t: Tally, rec: Record, t1: Tally)
    requires t.counts.Valid() && Payload(line).Some? && RecordOf(ctx.parse(Payload(line).value)) == Some(rec)
    requires ctx.hostOf(rec.url) !in t.fails
    requires t1 == t.(fails := t.fails[ctx.hostOf(rec.url) := 0])
    ensures var f := TryCategories(ctx, t.counts.keys, t1, rec, ctx.hostOf(rec.url));
      Step(ctx, line, t) == if f.Continue? && AllAtLimit(f.t.counts, ctx.limit) then Done(f.t) else f
    ensures ctx.hostOf(rec.url) in Step(ctx, line, t).t.fails
  {
  }

  /** One `save_file` attempt: a save that returns 0 adds exactly one to the
      file type's count and one that returns anything else adds exactly one
      to the host's failures, each using up one call; a raise stops the
      worker; nothing else changes. */
  lemma TryCategoryOutcome(ctx: Context, filetype: string, t: Tally, rec: Record, host: Option<string>)
    requires filetype in t.counts.values && host in t.fails
    requires Wants(ctx, filetype, t.counts.values[filetype], rec)
    ensures SaveAt(ctx, t.calls) == Raised ==> TryCategory(ctx, filetype, t, rec, host) == Crash(t)
    ensures SaveAt(ctx, t.calls) == Returned(0) ==>
      var f := TryCategory(ctx, filetype, t, rec, host);
      && f.Continue?
      && f.t.counts.values == t.counts.values[filetype := t.counts.values[filetype] + 1]
      && f.t.counts.keys == t.counts.keys && f.t.fails == t.fails && f.t.calls == t.calls + 1
    ensures SaveAt(ctx, t.calls).Returned? && SaveAt(ctx, t.calls).code != 0 ==>
      var f := TryCategory(ctx, filetype, t, rec, host);
      && f.Continue?
      && f.t.counts == t.counts && f.t.fails == t.fails[host := t.fails[host] + 1]
      && f.t.calls == t.calls + 1
  {
  }

  /** Counts never go down; a count at or past `limit` stays as it is, and a
      count at most `limit` stays at most `limit`. */
  ghost predicate Grows(before: Dict<string, int>, after: Dict<string, int>, limit: int)
  {
    && after.keys == before.keys && after.values.Keys == before.values.Keys
    && forall k :: k in before.values ==>
         && after.values[k] >= before.values[k]
         && (before.values[k] >= limit ==> after.values[k] == before.values[k])
         && (before.values[k] <= limit ==> after.values[k] <= limit)
  }

  /** Hosts stay in `tol_dict` and their failures never go down. */
  ghost predicate FailsGrow(before: map<Option<string>, int>, after: map<Option<string>, int>)
  {
    before.Keys <= after.Keys && forall h :: h in before ==> after[h] >= before[h]
  }

  ghost predicate Advances(t: Tally, t2: Tally, limit: int)
  {
    Grows(t.counts, t2.counts, limit) && FailsGrow(t.fails, t2.fails) && t.calls <= t2.calls
  }

  lemma AdvancesTransitive(a: Tally, b: Tally, c: Tally, limit: int)
    requires Advances(a, b, limit) && Advances(b, c, limit)
    ensures Advances(a, c, limit)
  {
    forall k | k in a.counts.values
      ensures c.counts.values[k] >= a.counts.values[k]
    {
      assert k in b.counts.values;
    }
  }

  lemma TryCategoryAdvances(ctx: Context, filetype: string, t: Tally, rec: Record, host: Option<string>)
    requires host in t.fails
    ensures Advances(t, TryCategory(ctx, filetype, t, rec, host).t, ctx.limit)
  {
  }

  lemma {:induction false} TryCategoriesAdvances(ctx: Context, keys: seq<string>, t: Tally, rec: Record, host: Option<string>)
    requires host in t.fails
    ensures Advances(t, TryCategories(ctx, keys, t, rec, host).t, ctx.limit)
    decreases |keys|
  {
    if keys != [] {
      var init := keys[..|keys| - 1];
      TryCategoriesAdvances(ctx, init, t, rec, host);
      var f1 := TryCategories(ctx, init, t, rec, host);
      if f1.Continue? {
        TryCategoryAdvances(ctx, keys[|keys| - 1], f1.t, rec, host);
        AdvancesTransitive(t, f1.t, TryCategory(ctx, keys[|keys| - 1], f1.t, rec, host).t, ctx.limit);
      }
    }
  }

  lemma StepAdvances(ctx: Context, line: string, t: Tally)
    requires t.counts.Valid()
    ensures Advances(t, Step(ctx, line, t).t, ctx.limit)
  {
    if Payload(line).Some? && RecordOf(ctx.parse(Payload(line).value)).Some? {
      var rec := RecordOf(ctx.parse(Payload(line).value)).value;
      var host := ctx.hostOf(rec.url);
      if !Excluded(ctx, t.fails, host) {
        var t1 := if host in t.fails then t else t.(fails := t.fails[host := 0]);
        var f2 := TryCategories(ctx, t.counts.keys, t1, rec, host);
        assert Step(ctx, line, t).t == f2.t;
        assert Advances(t, t1, ctx.limit) by { GrowsRefl(t.counts, ctx.limit); }
        TryCategoriesAdvances(ctx, t.counts.keys, t1, rec, host);
        AdvancesTransitive(t, t1, f2.t, ctx.limit);
      } else {
        GrowsRefl(t.counts, ctx.limit);
      }
    } else {
      GrowsRefl(t.counts, ctx.limit);
    }
  }

  lemma GrowsRefl(d: Dict<string, int>, limit: int)
    ensures Grows(d, d, limit)
  {
  }

  /** Over a whole shard the counts only grow, never past `limit` from below
      it, and a category at its quota is never saved into; host failures
      only grow. */
  lemma {:induction false} RunLinesAdvances(ctx: Context, lines: seq<string>, t0: Tally)
    requires t0.counts.Valid()
    ensures Advances(t0, RunLines(ctx, lines, t0).t, ctx.limit)
    decreases |lines|
  {
    if lines != [] {
      var init := lines[..|lines| - 1];
      RunLinesAdvances(ctx, init, t0);
      var f1 := RunLines(ctx, init, t0);
      if f1.Continue? {
        StepAdvances(ctx, lines[|lines| - 1], f1.t);
        AdvancesTransitive(t0, f1.t, Step(ctx, lines[|lines| - 1], f1.t).t, ctx.limit);
      }
    }
  }

  /** Counts that start at most `limit` end at most `limit`. */
  lemma QuotaNeverExceeded(ctx: Context, lines: seq<string>, t0: Tally)
    requires t0.counts.Valid()
    requires forall k :: k in t0.counts.values ==> t0.counts.values[k] <= ctx.limit
    ensures var t := RunLines(ctx, lines, t0).t;
      forall k :: k in t.counts.values ==> t.counts.values[k] <= ctx.limit
  {
    RunLinesAdvances(ctx, lines, t0);
  }

  /** A host once past the tolerance stays past it for the rest of the
      shard, so none of its later records is tried. */
  lemma ExcludedHostStaysExcluded(ctx: Context, lines: seq<string>, t0: Tally, host: Option<string>)
    requires t0.counts.Valid() && Excluded(ctx, t0.fails, host)
    ensures Excluded(ctx, RunLines(ctx, lines, t0).t.fails, host)
  {
    RunLinesAdvances(ctx, lines, t0);
  }

  /** The worker stops with `Done` only when every count is at `limit`. */
  lemma {:induction false} DoneOnlyAtQuota(ctx: Context, lines: seq<string>, t0: Tally)
    requires t0.counts.Valid() && RunLines(ctx, lines, t0).Done?
    ensures AllAtLimit(RunLines(ctx, lines, t0).t.counts, ctx.limit)
    decreases |lines|
  {
    var init := lines[..|lines| - 1];
    if !RunLines(ctx, init, t0).Continue? {
      DoneOnlyAtQuota(ctx, init, t0);
    }
  }

  /** Reading `a` and then `b` is reading `a`, and then `b` from where `a`
      left off if it went on. */
  lemma {:induction false} RunLinesAppend(ctx: Context, a: seq<string>, b: seq<string>, t0: Tally)
    requires t0.counts.Valid()
    ensures var fa := RunLines(ctx, a, t0);
      RunLines(ctx, a + b, t0) == if fa.Continue? then RunLines(ctx, b, fa.t) else fa
    decreases |b|
  {
    if b == [] {
      assert a + b == a;
    } else {
      var b1 := b[..|b| - 1];
      RunLinesAppend(ctx, a, b1, t0);
      assert (a + b)[..|a + b| - 1] == a + b1;
    }
  }

  /** Once every quota is met, the lines after are never read. */
  lemma NothingAfterDone(ctx: Context, a: seq<string>, b: seq<string>, t0: Tally)
    requires t0.counts.Valid() && RunLines(ctx, a, t0).Done?
    ensures RunLines(ctx, a + b, t0) == RunLines(ctx, a, t0)
  {
    RunLinesAppend(ctx, a, b, t0);
  }

  /** A malformed line, or one without a "200" status, is as if it were not
      in the shard: the lines around it are read as without it. */
  lemma MalformedLineTransparent(ctx: Context, a: seq<string>, bad: string, b: seq<string>, t0: Tally)
    requires t0.counts.Valid() && '{' in bad
    requires RecordOf(ctx.parse(Payload(bad).value)).None?
    ensures RunLines(ctx, a + [bad] + b, t0) == RunLines(ctx, a + b, t0)
  {
    RunLinesAppend(ctx, a + [bad], b, t0);
    RunLinesAppend(ctx, a, [bad], t0);
    RunLinesAppend(ctx, a, b, t0);
    var fa := RunLines(ctx, a, t0);
    if fa.Continue? {
      assert [bad][..0] == [];
      assert RunLines(ctx, [bad], fa.t) == Step(ctx, bad, fa.t);
    }
  }

  /** The type-rule config of the scenario below: "jpg" has mime
      "image/jpeg" and extension "jpg". */
  function JpegConfig(): Config
  {
    map["jpg" := Entry(Some(Str("image/jpeg")), Some(["jpg"]))]
  }

  /** A three-line shard whose first line is a "200" JPEG record; the
      single category "jpg" with `limit` 1; the first save returns 0. The
      worker saves exactly once, into "jpg", and stops on the first line:
      whatever the other two hold (a "404" record and a "200" HTML record,
      say), they are never read. */
  lemma JpegScenario(lines: seq<string>, tol: int, parse: string -> Parsed,
                     hostOf: string -> Option<string>, saves: nat -> Saved, jpegUrl: string)
    requires |lines| == 3 && '{' in lines[0] && saves(0) == Returned(0)
    requires parse(Payload(lines[0]).value)
          == Object(map["mime-detected" := Str("image/jpeg"), "url" := Str(jpegUrl), "status" := Str("200")])
    ensures var ctx := Context(JpegConfig(), 1, tol, parse, hostOf, saves);
      var t0 := Tally(Zeros(["jpg"]), map[], 0);
      var done := Done(Tally(Dict(["jpg"], map["jpg" := 1]), map[hostOf(jpegUrl) := 0], 1));
      RunLines(ctx, lines[..1], t0) == done && RunLines(ctx, lines, t0) == done
  {
    assert Zeros(["jpg"]) == Dict(["jpg"], map["jpg" := 0]) by {
      assert ["jpg"][..0] == [];
    }
    JpegRun(Context(JpegConfig(), 1, tol, parse, hostOf, saves), lines, jpegUrl);
  }

  /** The scenario from the zero counts written out. */
  lemma JpegRun(ctx: Context, lines: seq<string>, jpegUrl: string)
    requires ctx.config == JpegConfig() && ctx.limit == 1 && ctx.saves(0) == Returned(0)
    requires |lines| == 3 && '{' in lines[0]
    requires ctx.parse(Payload(lines[0]).value)
          == Object(map["mime-detected" := Str("image/jpeg"), "url" := Str(jpegUrl), "status" := Str("200")])
    ensures var t0 := Tally(Dict(["jpg"], map["jpg" := 0]), map[], 0);
      var done := Done(Tally(Dict(["jpg"], map["jpg" := 1]), map[ctx.hostOf(jpegUrl) := 0], 1));
      RunLines(ctx, lines[..1], t0) == done && RunLines(ctx, lines, t0) == done
  {
    var t0 := Tally(Dict(["jpg"], map["jpg" := 0]), map[], 0);
    JpegFirstLine(ctx, lines[0], jpegUrl);
    assert lines[..0] == [];
    RunLinesNext(ctx, lines, 0, t0, t0);
    NothingAfterDone(ctx, lines[..1], lines[1..], t0);
    assert lines[..1] + lines[1..] == lines;
  }

  /** The first line of the scenario: its record is tried against "jpg",
      saved, and the quota test ends the worker. */
  lemma JpegFirstLine(ctx: Context, line: string, jpegUrl: string)
    requires ctx.config == JpegConfig() && ctx.limit == 1 && ctx.saves(0) == Returned(0)
    requires '{' in line
    requires ctx.parse(Payload(line).value)
          == Object(map["mime-detected" := Str("image/jpeg"), "url" := Str(jpegUrl), "status" := Str("200")])
    ensures Step(ctx, line, Tally(Dict(["jpg"], map["jpg" := 0]), map[], 0))
         == Done(Tally(Dict(["jpg"], map["jpg" := 1]), map[ctx.hostOf(jpegUrl) := 0], 1))
  {
    var t0 := Tally(Dict(["jpg"], map["jpg" := 0]), map[], 0);
    var rec := Record(Str("image/jpeg"), jpegUrl);
    var host := ctx.hostOf(jpegUrl);
    var t1 := Tally(Dict(["jpg"], map["jpg" := 0]), map[host := 0], 0);
    NewHostEntered(ctx, line, t0, rec, t1);
    JpegSaved(ctx, rec, host);
    assert AllAtLimit(Dict(["jpg"], map["jpg" := 1]), 1);
  }

  /** The one category of the scenario takes the JPEG record. */
  lemma JpegSaved(ctx: Context, rec: Record, host: Option<string>)
    requires ctx.config == JpegConfig() && ctx.limit == 1 && ctx.saves(0) == Returned(0)
    requires rec.mime == Str("image/jpeg")
    ensures TryCategories(ctx, ["jpg"], Tally(Dict(["jpg"], map["jpg" := 0]), map[host := 0], 0), rec, host)
         == Continue(Tally(Dict(["jpg"], map["jpg" := 1]), map[host := 0], 1))
  {
    var t1 := Tally(Dict(["jpg"], map["jpg" := 0]), map[host := 0], 0);
    assert Wants(ctx, "jpg", 0, rec);
    assert ["jpg"][..0] == [];
    assert TryCategories(ctx, ["jpg"], t1, rec, host) == TryCategory(ctx, "jpg", t1, rec, host);
  }


  // ---------------------------------------------------------------------
  // run_batch and main

  /** Every worker of a batch exited with code 0; None is a join that timed
      out, whose `exitcode` is None. */
  predicate BatchOk(exits: seq<Option<int>>)
  {
    forall i :: 0 <= i < |exits| ==> exits[i] == Some(0)
  }

  /** The join loop of `run_batch`, over the workers' exit codes in the
      order they were started: -1 at the first that is not 0, else 0. */
  method RunBatch(exits: seq<Option<int>>) returns (rc: int)
    ensures rc == 0 <==> BatchOk(exits)
    ensures rc == 0 || rc == -1
  {
    var i := 0;
    while i < |exits|
      invariant i <= |exits| && BatchOk(exits[..i])
    {
      if exits[i] != Some(0) {
        return -1;
      }
      assert exits[..i + 1] == exits[..i] + [exits[i]];
      i := i + 1;
    }
    assert exits[..i] == exits;
    return 0;
  }

  /** A batch that timed out, or any worker that did not exit with 0,
      fails the batch. */
  lemma TimedOutWorkerFailsBatch(exits: seq<Option<int>>, i: nat)
    requires i < |exits| && exits[i] != Some(0)
    ensures !BatchOk(exits)
  {
  }

  /** The arguments `main` reads after validation. */
  datatype Args = Args(limit: int, filetypes: seq<string>, numProcs: int)

  /** What `main` sees of a batch once `run_batch` is back: the workers'
      exit codes and the counts the shared dict then reports. */
  datatype BatchOutcome = BatchOutcome(exits: seq<Option<int>>, counts: map<string, int>)

  /** The shared counts after the workers of a batch: each category
      reported takes the reported value; reports of types that are not
      keys are not entered, and the keys keep their order. */
  function Overlay(d: Dict<string, int>, reported: map<string, int>): (r: Dict<string, int>)
    ensures r.keys == d.keys && r.values.Keys == d.values.Keys
    ensures d.Valid() ==> r.Valid()
    ensures forall k :: k in d.values && k in reported ==> r.values[k] == reported[k]
    ensures forall k :: k in d.values && k !in reported ==> r.values[k] == d.values[k]
  {
    Dict(d.keys, map k | k in d.values :: if k in reported then reported[k] else d.values[k])
  }

  /** A batch that reports no key leaves the counts as they were. */
  lemma OverlaySilent(d: Dict<string, int>, reported: map<string, int>)
    requires reported.Keys !! d.values.Keys
    ensures Overlay(d, reported) == d
  {
    var r := Overlay(d, reported);
    assert r.values == d.values;
  }

  /** Reporting the same counts twice is reporting them once. */
  lemma OverlayIdempotent(d: Dict<string, int>, reported: map<string, int>)
    ensures Overlay(Overlay(d, reported), reported) == Overlay(d, reported)
  {
    var r := Overlay(d, reported);
    assert Overlay(r, reported).values == r.values;
  }

  /** A later batch that reports every type an earlier one reported hides
      the earlier report entirely. */
  lemma OverlayLastWins(d: Dict<string, int>, m1: map<string, int>, m2: map<string, int>)
    requires m1.Keys <= m2.Keys
    ensures Overlay(Overlay(d, m1), m2) == Overlay(d, m2)
  {
    assert Overlay(Overlay(d, m1), m2).values == Overlay(d, m2).values;
  }

  /** The shared counts after the first `n` batches. */
  function Replay(d: Dict<string, int>, batches: nat -> BatchOutcome, n: nat): Dict<string, int>
  {
    if n == 0 then d else Overlay(Replay(d, batches, n - 1), batches(n - 1).counts)
  }

  /** The first `n` batches succeeded. */
  ghost predicate AllOk(batches: nat -> BatchOutcome, n: int)
  {
    forall i: nat :: i < n ==> BatchOk(batches(i).exits)
  }

  /** After none of the first `n` batches were the quotas met. */
  ghost predicate NeverDone(d: Dict<string, int>, batches: nat -> BatchOutcome, limit: int, n: int)
  {
    forall i: nat :: 0 < i <= n ==> !MetAfter(d, batches, limit, i)
  }

  /** The quotas are met after the first `n` batches. */
  ghost predicate MetAfter(d: Dict<string, int>, batches: nat -> BatchOutcome, limit: int, n: nat)
  {
    AllAtLimit(Replay(d, batches, n), limit)
  }

  /** Where `main` stands after `n` batches, started from `d`: the shared
      counts are those the batches reported; `stop` is None while it goes on,
      with every batch so far a success and the quotas never met; -1 right
      after the first failed batch; 0 as soon as the quotas are met. */
  ghost predicate Standing(stop: Option<int>, items: Dict<string, int>, d: Dict<string, int>,
                           batches: nat -> BatchOutcome, limit: int, n: nat)
  {
    && items == Replay(d, batches, n)
    && (stop.None? || stop == Some(0) || stop == Some(-1))
    && (stop.None? ==> AllOk(batches, n) && NeverDone(d, batches, limit, n))
    && (stop == Some(-1) ==>
          n > 0 && !BatchOk(batches(n - 1).exits) && AllOk(batches, n - 1) && NeverDone(d, batches, limit, n - 1))
    && (stop == Some(0) ==>
          AllAtLimit(items, limit) && AllOk(batches, n) && NeverDone(d, batches, limit, n - 1))
  }

  /** `main` from the arguments on. `args` is None when `get_validated_args`
      returned -1; `catalog` is what `get_index_urls` returned;
      `manifestOf(name)` is the lines of an index's unpacked manifest, None
      when `download_and_ungzip` returned ""; `batches(b)` is how the b-th
      batch run ends. `launched` is the batches run, `counts` the shared
      counts at the end.

      Of the planned batches, a prefix is run; every batch but the last one
      run succeeded, and the result is -1 exactly when the last one failed
      (or there were no arguments or no catalog). When `main` stops before
      the end of the plan, the quotas are met; and it never starts a batch
      once they are met. */
  method Harvest(args: Option<Args>, catalog: Dict<string, string>,
                 manifestOf: string -> Option<seq<string>>, batches: nat -> BatchOutcome)
    returns (rc: int, launched: seq<seq<string>>, counts: Dict<string, int>)
    ensures rc == 0 || rc == -1
    ensures args.None? || catalog.keys == [] ==> rc == -1 && launched == []
    ensures args.Some? && catalog.keys != [] ==>
      var a := args.value;
      var plan := PlanAll(catalog.keys, manifestOf, BatchSize(a.numProcs));
      && launched <= plan
      && counts == Replay(Zeros(a.filetypes), batches, |launched|)
      && AllOk(batches, |launched| - 1)
      && (rc == -1 <==> |launched| > 0 && !BatchOk(batches(|launched| - 1).exits))
      && (rc == 0 && launched != plan ==> AllAtLimit(counts, a.limit))
      && NeverDone(Zeros(a.filetypes), batches, a.limit, |launched| - 1)
  {
    if args.None? {
      return -1, [], EmptyDict();
    }
    if catalog.keys == [] {
      return -1, [], EmptyDict();
    }
    var initial := ZeroCounts(args.value.filetypes);
    var fc := new FileCounts(initial);
    var stop;
    stop, launched := HarvestIndexes(fc, catalog.keys, manifestOf, args.value.limit, args.value.numProcs,
                                     batches, initial);
    StandingEnds(stop, fc.items, initial, batches, args.value.limit, launched,
                 PlanAll(catalog.keys, manifestOf, BatchSize(args.value.numProcs)));
    rc := if stop.None? then 0 else stop.value;
    counts := fc.items;
  }

  /** The loop of `main` over the index names (`for name in index_urls`),
      from the zeroed shared counts `initial` on. */
  method HarvestIndexes(fc: FileCounts, names: seq<string>, manifestOf: string -> Option<seq<string>>,
                        limit: int, numProcs: int, batches: nat -> BatchOutcome,
                        ghost initial: Dict<string, int>)
    returns (stop: Option<int>, launched: seq<seq<string>>)
    requires fc.items == initial
    modifies fc
    ensures launched <= PlanAll(names, manifestOf, BatchSize(numProcs))
    ensures stop.None? ==> launched == PlanAll(names, manifestOf, BatchSize(numProcs))
    ensures Standing(stop, fc.items, initial, batches, limit, |launched|)
  {
    launched := [];
    var i := 0;
    while i < |names|
      invariant i <= |names|
      invariant launched == PlanAll(names[..i], manifestOf, BatchSize(numProcs))
      invariant Standing(None, fc.items, initial, batches, limit, |launched|)
    {
      stop, launched := HarvestName(fc, names, i, manifestOf, limit, numProcs, batches, launched, initial);
      if stop.Some? {
        return;
      }
      i := i + 1;
    }
    assert names[..i] == names;
    return None, launched;
  }

  /** What `main` returns from where it stands: 0 when it went through the
      whole plan or stopped at the quotas, -1 right after a failed batch. */
  lemma StandingEnds(stop: Option<int>, items: Dict<string, int>, d: Dict<string, int>,
                     batches: nat -> BatchOutcome, limit: int, launched: seq<seq<string>>, plan: seq<seq<string>>)
    requires Standing(stop, items, d, batches, limit, |launched|)
    requires stop.None? ==> launched == plan
    ensures var rc := if stop.None? then 0 else stop.value;
      && (rc == 0 || rc == -1)
      && items == Replay(d, batches, |launched|)
      && AllOk(batches, |launched| - 1)
      && (rc == -1 <==> |launched| > 0 && !BatchOk(batches(|launched| - 1).exits))
      && (rc == 0 && launched != plan ==> AllAtLimit(items, limit))
      && NeverDone(d, batches, limit, |launched| - 1)
  {
    var n := |launched|;
    if stop != Some(-1) && n > 0 {
      assert BatchOk(batches(n - 1).exits);
    }
  }

  /** One pass of the loop of `main` over the catalog: the manifest of
      `names[i]` (skipped when its download gave ""), read through
      `HarvestIndex`. */
  method HarvestName(fc: FileCounts, names: seq<string>, i: nat, manifestOf: string -> Option<seq<string>>,
                     limit: int, numProcs: int, batches: nat -> BatchOutcome,
                     launched0: seq<seq<string>>, ghost initial: Dict<string, int>)
    returns (stop: Option<int>, launched: seq<seq<string>>)
    requires i < |names| && launched0 == PlanAll(names[..i], manifestOf, BatchSize(numProcs))
    requires Standing(None, fc.items, initial, batches, limit, |launched0|)
    modifies fc
    ensures Standing(stop, fc.items, initial, batches, limit, |launched|)
    ensures stop.None? ==> launched == PlanAll(names[..i + 1], manifestOf, BatchSize(numProcs))
    ensures stop.Some? ==> launched <= PlanAll(names, manifestOf, BatchSize(numProcs))
  {
    ghost var k := BatchSize(numProcs);
    PlanAllNext(names, i, manifestOf, k);
    var manifest := manifestOf(names[i]);
    if manifest.None? {
      return None, launched0;
    }
    ghost var read;
    stop, launched, read := HarvestIndex(fc, manifest.value, limit, numProcs, batches, launched0, initial);
    if stop.Some? {
      PlanStep(names, i, manifestOf, k, manifest.value, read);
      return;
    }
    assert manifest.value[..read] == manifest.value;
  }

  /** The loop of `main` over one manifest's lines (`for url_suffix in
      index_paths`): it gathers shard URLs, runs a batch each time
      `num_procs` of them are gathered, and tests the quotas after each
      shard URL. `stop` is what `main` then returns, None when it goes on
      with the next index. The batches run are a prefix of the manifest's
      groups, all of them when it goes on. */
  method HarvestIndex(fc: FileCounts, lines: seq<string>, limit: int, numProcs: int,
                      batches: nat -> BatchOutcome, launched0: seq<seq<string>>,
                      ghost initial: Dict<string, int>)
    returns (stop: Option<int>, launched: seq<seq<string>>, ghost read: nat)
    requires Standing(None, fc.items, initial, batches, limit, |launched0|)
    modifies fc
    ensures Standing(stop, fc.items, initial, batches, limit, |launched|)
    ensures read <= |lines| && (stop.None? ==> read == |lines|)
    ensures launched == launched0 + Chunks(ShardUrls(lines[..read]), BatchSize(numProcs))
  {
    ghost var k := BatchSize(numProcs);
    launched := launched0;
    var batch: seq<string> := [];
    var j := 0;
    while j < |lines|
      invariant j <= |lines|
      invariant launched == launched0 + Chunks(ShardUrls(lines[..j]), k)
      invariant batch == Leftover(ShardUrls(lines[..j]), k)
      invariant Standing(None, fc.items, initial, batches, limit, |launched|)
    {
      if !IsShard(lines[j]) {
        SkipLine(lines, j);
        j := j + 1;
        continue;
      }
      GatherShard(lines, j, numProcs, batch, launched0, launched);
      stop, batch, launched := TakeShard(fc, ShardUrl(lines[j]), batch, launched, limit, numProcs,
                                         batches, initial);
      if stop.Some? {
        return stop, launched, j + 1;
      }
      j := j + 1;
    }
    assert lines[..j] == lines;
    return None, launched, j;
  }

  /** One shard URL of a manifest: it joins the batch; a batch of
      `num_procs` URLs is run and emptied, and `main` returns -1 when the run
      fails; then `main` returns 0 when the quotas are met. */
  method TakeShard(fc: FileCounts, url: string, batch: seq<string>, launched: seq<seq<string>>,
                   limit: int, numProcs: int, batches: nat -> BatchOutcome,
                   ghost initial: Dict<string, int>)
    returns (stop: Option<int>, pending: seq<string>, grown: seq<seq<string>>)
    requires Standing(None, fc.items, initial, batches, limit, |launched|)
    modifies fc
    ensures Standing(stop, fc.items, initial, batches, limit, |grown|)
    ensures |batch + [url]| >= numProcs ==>
      grown == launched + [batch + [url]] && (stop != Some(-1) ==> pending == [])
    ensures |batch + [url]| < numProcs ==> grown == launched && pending == batch + [url]
  {
    pending := batch + [url];
    grown := launched;
    if |pending| >= numProcs {
      var ok;
      ok, grown := LaunchBatch(fc, batches, launched, pending, initial);
      if !ok {
        return Some(-1), pending, grown;
      }
      pending := [];
    }
    if AllAtLimit(fc.items, limit) {
      return Some(0), pending, grown;
    }
    NeverDoneNext(initial, batches, limit, |grown|);
    return None, pending, grown;
  }

  /** The quotas still unmet after one more batch. */
  lemma NeverDoneNext(d: Dict<string, int>, batches: nat -> BatchOutcome, limit: int, n: nat)
    requires NeverDone(d, batches, limit, n - 1) && !AllAtLimit(Replay(d, batches, n), limit)
    ensures NeverDone(d, batches, limit, n)
  {
  }

  /** `run_batch` on the next batch, whose workers leave the shared counts
      as the batch's outcome reports; `grown` is the batches run so far. `ok`
      is `run_batch(...) == 0`. */
  method LaunchBatch(fc: FileCounts, batches: nat -> BatchOutcome, launched: seq<seq<string>>,
                     batch: seq<string>, ghost initial: Dict<string, int>)
    returns (ok: bool, grown: seq<seq<string>>)
    requires fc.items == Replay(initial, batches, |launched|)
    modifies fc
    ensures grown == launched + [batch]
    ensures fc.items == Replay(initial, batches, |grown|)
    ensures ok == BatchOk(batches(|grown| - 1).exits)
    ensures ok && AllOk(batches, |launched|) ==> AllOk(batches, |grown|)
  {
    var outcome := batches(|launched|);
    var r := RunBatch(outcome.exits);
    fc.items := Overlay(fc.items, outcome.counts);
    ok := r == 0;
    grown := launched + [batch];
  }

  /** The plan up to index `i`, followed by the groups of a prefix of index
      `i`'s manifest, is a prefix of the whole plan. */
  lemma PlanStep(names: seq<string>, i: nat, manifestOf: string -> Option<seq<string>>, k: nat,
                 lines: seq<string>, read: nat)
    requires k >= 1 && i < |names| && manifestOf(names[i]) == Some(lines) && read <= |lines|
    ensures PlanAll(names[..i], manifestOf, k) + Chunks(ShardUrls(lines[..read]), k) <= PlanAll(names, manifestOf, k)
  {
    ChunksOfPrefix(lines, read, k);
    PlanAllNext(names, i, manifestOf, k);
    PlanAllPrefix(names, i + 1, manifestOf, k);
  }
}
