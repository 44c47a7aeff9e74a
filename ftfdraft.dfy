/** The older draft of the harvester, filetypefetcher/ftf.py: the same
    worker, `run_batch` and `main`, without host tolerance and without any
    reaction to a failed batch.

    As for the newer draft, what the worker downloads, how each `save_file`
    call ends and what `json.loads` makes of a payload are inputs. */
module FtfDraft {
  import opened Py
  import opened Web
  import opened Cdx
  import opened Manifest
  import Ftf

  /** What the record loop carries: the shared `file_counts` and the number
      of `save_file` calls made so far. There is no `tol_dict`. */
  datatype Tally = Tally(counts: Dict<string, int>, calls: nat)

  /** What a worker is given: the type-rule config, `limit`, and the outcomes
      of `json.loads` on a payload and of the k-th `save_file` call. */
  datatype Context = Context(config: Config, limit: int, parse: string -> Parsed, saves: nat -> Saved)

  datatype Flow = Continue(t: Tally) | Done(t: Tally) | Crash(t: Tally)

  /** Whether a record is saved for `filetype` under the draft's context. */
  predicate Wants(ctx: Context, filetype: string, count: int, rec: Record)
  {
    Takes(ctx.config, ctx.limit, filetype, count, rec)
  }

  /** One file type tried against one record: skipped when its quota is met,
      its config entry is unusable or the rule does not match; else one
      `save_file` call, which adds one to the count when it returns 0 and
      changes no count otherwise. */
  function TryCategory(ctx: Context, filetype: string, t: Tally, rec: Record): (f: Flow)
    ensures !f.Done?
    ensures f.t.counts.keys == t.counts.keys && f.t.counts.values.Keys == t.counts.values.Keys
    ensures filetype in t.counts.values && !Wants(ctx, filetype, t.counts.values[filetype], rec) ==>
      f == Continue(t)
    ensures filetype in t.counts.values && Wants(ctx, filetype, t.counts.values[filetype], rec) ==>
      && (ctx.saves(t.calls) == Raised ==> f == Crash(t))
      && (ctx.saves(t.calls) == Returned(0) ==>
            f.Continue? && f.t.counts.values == t.counts.values[filetype := t.counts.values[filetype] + 1]
            && f.t.calls == t.calls + 1)
      && (ctx.saves(t.calls).Returned? && ctx.saves(t.calls).code != 0 ==>
            f == Continue(Tally(t.counts, t.calls + 1)))
  {
    // Not reached: the types tried are the keys of the counts.
    if filetype !in t.counts.values then Continue(t) else
    var count := t.counts.values[filetype];
    if !Wants(ctx, filetype, count, rec) then Continue(t)
    else match ctx.saves(t.calls)
      case Raised => Crash(t)
      case Returned(code) =>
        if code == 0 then Continue(Tally(Put(t.counts, filetype, count + 1), t.calls + 1))
        else Continue(Tally(t.counts, t.calls + 1))
  }

  /** The file types of `keys` tried in order, stopping at an exception. */
  function TryCategories(ctx: Context, keys: seq<string>, t: Tally, rec: Record): (f: Flow)
    ensures !f.Done?
    ensures f.t.counts.keys == t.counts.keys && f.t.counts.values.Keys == t.counts.values.Keys
    decreases |keys|
  {
    if keys == [] then Continue(t)
    else
      var f1 := TryCategories(ctx, keys[..|keys| - 1], t, rec);
      if f1.Continue? then TryCategory(ctx, keys[|keys| - 1], f1.t, rec) else f1
  }

  /** One shard line: a line without "{" raises outside any handler; an
      unusable or non-"200" record is skipped; any other record is tried
      against every category, and the quota test ends the worker once every
      count is at `limit`. */
  function Step(ctx: Context, line: string, t: Tally): (f: Flow)
    requires t.counts.Valid()
    ensures f.t.counts.Valid() && f.t.counts.keys == t.counts.keys
  {
    match Payload(line)
    case None => Crash(t)
    case Some(p) =>
      match RecordOf(ctx.parse(p))
      case None => Continue(t)
      case Some(rec) =>
        var f2 := TryCategories(ctx, t.counts.keys, t, rec);
        if !f2.Continue? then f2
        else if AllAtLimit(f2.t.counts, ctx.limit) then Done(f2.t)
        else f2
  }

  /** The lines of a shard read in order, up to the first that ends the
      worker. */
  function RunLines(ctx: Context, lines: seq<string>, t0: Tally): (f: Flow)
    requires t0.counts.Valid()
    ensures f.t.counts.Valid() && f.t.counts.keys == t0.counts.keys
    decreases |lines|
  {
    if lines == [] then Continue(t0)
    else
      var f1 := RunLines(ctx, lines[..|lines| - 1], t0);
      if f1.Continue? then Step(ctx, lines[|lines| - 1], f1.t) else f1
  }

  /** How the worker ends: it returns a value, which `multiprocessing`
      ignores (the exit code is 0), or an exception escapes (exit code 1). */
  datatype WorkerEnd = Returns(value: int) | Uncaught

  function ExitCode(e: WorkerEnd): (code: int)
    ensures code == 0 <==> e.Returns?
  {
    if e.Returns? then 0 else 1
  }

  lemma {:induction false} RunLinesStops(ctx: Context, lines: seq<string>, n: nat, t0: Tally)
    requires t0.counts.Valid() && n <= |lines|
    requires !RunLines(ctx, lines[..n], t0).Continue?
    ensures RunLines(ctx, lines, t0) == RunLines(ctx, lines[..n], t0)
    decreases |lines| - n
  {
    if n < |lines| {
      assert lines[..n + 1][..n] == lines[..n];
      RunLinesStops(ctx, lines, n + 1, t0);
    } else {
      assert lines[..n] == lines;
    }
  }

  lemma {:induction false} TryCategoriesStops(ctx: Context, keys: seq<string>, n: nat, t: Tally, rec: Record)
    requires n <= |keys| && !TryCategories(ctx, keys[..n], t, rec).Continue?
    ensures TryCategories(ctx, keys, t, rec) == TryCategories(ctx, keys[..n], t, rec)
    decreases |keys| - n
  {
    if n < |keys| {
      assert keys[..n + 1][..n] == keys[..n];
      TryCategoriesStops(ctx, keys, n + 1, t, rec);
    } else {
      assert keys[..n] == keys;
    }
  }

  lemma RunLinesNext(ctx: Context, lines: seq<string>, i: nat, t0: Tally, t: Tally)
    requires t0.counts.Valid() && i < |lines|
    requires RunLines(ctx, lines[..i], t0) == Continue(t)
    ensures t.counts.Valid()
    ensures RunLines(ctx, lines[..i + 1], t0) == Step(ctx, lines[i], t)
  {
    assert lines[..i + 1][..i] == lines[..i];
  }

  lemma TryCategoriesNext(ctx: Context, keys: seq<string>, j: nat, t1: Tally, rec: Record, t: Tally)
    requires j < |keys| && TryCategories(ctx, keys[..j], t1, rec) == Continue(t)
    ensures TryCategories(ctx, keys[..j + 1], t1, rec) == TryCategory(ctx, keys[j], t, rec)
  {
    assert keys[..j + 1][..j] == keys[..j];
  }

  /** What `download_and_ungzip` gave the worker: it raised (its gzip
      extraction has no handler), it returned "", or it returned the path of
      the unpacked shard, whose lines are given. */
  datatype Shard = ShardRaises | ShardEmpty | ShardLines(lines: seq<string>)

  /** `fetch_files_in_cdx` of the older draft. A download that returned ""
      and a config file that does not parse return -1; a corrupt shard and a
      config file that cannot be opened raise; otherwise the counts are those
      the record loop reaches, and the worker returns 0 unless an exception
      escaped. */
  method FetchFilesInCdx(fc: FileCounts, shard: Shard, configFile: Ftf.ConfigFile,
                         limit: int, parse: string -> Parsed, saves: nat -> Saved)
    returns (end: WorkerEnd)
    requires fc.items.Valid()
    modifies fc
    ensures fc.items.Valid() && fc.items.keys == old(fc.items.keys)
    ensures shard.ShardRaises? ==> end == Uncaught && fc.items == old(fc.items)
    ensures shard.ShardEmpty? ==> end == Returns(-1) && fc.items == old(fc.items)
    ensures shard.ShardLines? && configFile.NoConfigFile? ==> end == Uncaught && fc.items == old(fc.items)
    ensures shard.ShardLines? && configFile.BadConfigJson? ==> end == Returns(-1) && fc.items == old(fc.items)
    ensures shard.ShardLines? && configFile.ConfigJson? ==>
      var f := RunLines(Context(configFile.config, limit, parse, saves), shard.lines, Tally(old(fc.items), 0));
      fc.items == f.t.counts && end == (if f.Crash? then Uncaught else Returns(0))
  {
    if shard.ShardRaises? {
      return Uncaught;
    }
    if shard.ShardEmpty? {
      return Returns(-1);
    }
    if configFile.NoConfigFile? {
      return Uncaught;
    }
    if configFile.BadConfigJson? {
      return Returns(-1);
    }
    var ctx := Context(configFile.config, limit, parse, saves);
    var lines := shard.lines;
    ghost var t0 := Tally(fc.items, 0);
    var calls: nat := 0;
    var i := 0;
    while i < |lines|
      invariant i <= |lines|
      invariant fc.items.Valid() && fc.items.keys == t0.counts.keys
      invariant RunLines(ctx, lines[..i], t0) == Continue(Tally(fc.items, calls))
    {
      RunLinesNext(ctx, lines, i, t0, Tally(fc.items, calls));
      var stop;
      stop, calls := ProcessLine(fc, ctx, lines[i], calls);
      if stop.Some? {
        RunLinesStops(ctx, lines, i + 1, t0);
        return stop.value;
      }
      i := i + 1;
    }
    assert lines[..i] == lines;
    return Returns(0);
  }

  /** The body of the record loop, for one line. */
  method ProcessLine(fc: FileCounts, ctx: Context, line: string, calls0: nat)
    returns (stop: Option<WorkerEnd>, calls: nat)
    requires fc.items.Valid()
    modifies fc
    ensures var f := Step(ctx, line, Tally(old(fc.items), calls0));
      && Tally(fc.items, calls) == f.t
      && (stop.None? <==> f.Continue?)
      && (f.Done? ==> stop == Some(Returns(0)))
      && (f.Crash? ==> stop == Some(Uncaught))
  {
    calls := calls0;
    var payload := Payload(line);
    if payload.None? {
      return Some(Uncaught), calls;
    }
    var rec := RecordOf(ctx.parse(payload.value));
    if rec.None? {
      return None, calls;
    }
    var crashed;
    crashed, calls := TryAllCategories(fc, ctx, rec.value, calls);
    if crashed {
      return Some(Uncaught), calls;
    }
    if AllAtLimit(fc.items, ctx.limit) {
      return Some(Returns(0)), calls;
    }
    return None, calls;
  }

  /** The loop `for filetype in file_counts.keys()` of one record. */
  method TryAllCategories(fc: FileCounts, ctx: Context, rec: Record, calls0: nat)
    returns (crashed: bool, calls: nat)
    modifies fc
    ensures var f := TryCategories(ctx, old(fc.items).keys, Tally(old(fc.items), calls0), rec);
      crashed == f.Crash? && Tally(fc.items, calls) == f.t
  {
    ghost var t1 := Tally(fc.items, calls0);
    calls := calls0;
    var keys := fc.items.keys;
    var j := 0;
    while j < |keys|
      invariant j <= |keys|
      invariant fc.items.keys == keys && fc.items.values.Keys == t1.counts.values.Keys
      invariant TryCategories(ctx, keys[..j], t1, rec) == Continue(Tally(fc.items, calls))
    {
      TryCategoriesNext(ctx, keys, j, t1, rec, Tally(fc.items, calls));
      crashed, calls := TryCategoryOnce(fc, ctx, keys[j], rec, calls);
      if crashed {
        TryCategoriesStops(ctx, keys, j + 1, t1, rec);
        return;
      }
      j := j + 1;
    }
    assert keys[..j] == keys;
    return false, calls;
  }

  /** The body of the loop over the file types, for one type. */
  method TryCategoryOnce(fc: FileCounts, ctx: Context, filetype: string, rec: Record, calls0: nat)
    returns (crashed: bool, calls: nat)
    modifies fc
    ensures var f := TryCategory(ctx, filetype, Tally(old(fc.items), calls0), rec);
      crashed == f.Crash? && Tally(fc.items, calls) == f.t
  {
    calls := calls0;
    if filetype !in fc.items.values {
      return false, calls;
    }
    var count := fc.items.values[filetype];
    if Wants(ctx, filetype, count, rec) {
      var saved := ctx.saves(calls);
      if saved.Raised? {
        return true, calls;
      }
      if saved.code == 0 {
        fc.Set(filetype, count + 1);
      }
      calls := calls + 1;
    }
    return false, calls;
  }


  // ---------------------------------------------------------------------
  // Properties of the record loop

  /** A record whose payload does not parse, lacks a field, has a URL that
      is not a string or a status other than "200" changes nothing. */
  lemma UnusableRecordSkipped(ctx: Context, line: string, t: Tally)
    requires t.counts.Valid() && '{' in line
    requires RecordOf(ctx.parse(Payload(line).value)).None?
    ensures Step(ctx, line, t) == Continue(t)
  {
  }

  /** One `save_file` attempt: a save that returns 0 adds exactly one to the
      type's count; one that returns anything else changes no count and only
      uses up the call; a raise stops the worker. */
  lemma TryCategoryOutcome(ctx: Context, filetype: string, t: Tally, rec: Record)
    requires filetype in t.counts.values
    requires Wants(ctx, filetype, t.counts.values[filetype], rec)
    ensures ctx.saves(t.calls) == Raised ==> TryCategory(ctx, filetype, t, rec) == Crash(t)
    ensures ctx.saves(t.calls) == Returned(0) ==>
      var f := TryCategory(ctx, filetype, t, rec);
      && f.Continue?
      && f.t.counts.values == t.counts.values[filetype := t.counts.values[filetype] + 1]
      && f.t.counts.keys == t.counts.keys && f.t.calls == t.calls + 1
    ensures ctx.saves(t.calls).Returned? && ctx.saves(t.calls).code != 0 ==>
      TryCategory(ctx, filetype, t, rec) == Continue(Tally(t.counts, t.calls + 1))
  {
  }

  /** A call count that did not move means nothing was tried: the state is
      as it was. */
  lemma {:induction false} NoCallNoChange(ctx: Context, keys: seq<string>, t: Tally, rec: Record)
    ensures var f := TryCategories(ctx, keys, t, rec);
      t.calls <= f.t.calls && (f.t.calls == t.calls ==> f.t == t)
    decreases |keys|
  {
    if keys != [] {
      NoCallNoChange(ctx, keys[..|keys| - 1], t, rec);
    }
  }

  /** With no host tolerance, every usable record is tried: when some
      category would take it from the counts the worker holds, at least one
      `save_file` call is made for it (or the call raised). */
  lemma EveryUsableRecordTried(ctx: Context, line: string, t: Tally, k: string)
    requires t.counts.Valid() && Payload(line).Some?
    requires RecordOf(ctx.parse(Payload(line).value)).Some?
    requires k in t.counts.values
    requires Wants(ctx, k, t.counts.values[k], RecordOf(ctx.parse(Payload(line).value)).value)
    ensures var f := Step(ctx, line, t);
      f.Crash? || f.t.calls > t.calls
  {
    var rec := RecordOf(ctx.parse(Payload(line).value)).value;
    var keys := t.counts.keys;
    assert k in keys;
    var j :| 0 <= j < |keys| && keys[j] == k;
    TriedAt(ctx, keys, j, t, rec);
  }

  /** The category at position `j` is reached with the counts unchanged
      unless a call was already made. */
  lemma TriedAt(ctx: Context, keys: seq<string>, j: nat, t: Tally, rec: Record)
    requires j < |keys| && keys[j] in t.counts.values
    requires Wants(ctx, keys[j], t.counts.values[keys[j]], rec)
    ensures var f := TryCategories(ctx, keys, t, rec);
      f.Crash? || f.t.calls > t.calls
  {
    var before := TryCategories(ctx, keys[..j], t, rec);
    NoCallNoChange(ctx, keys[..j], t, rec);
    if !before.Continue? {
      TryCategoriesStops(ctx, keys, j, t, rec);
    } else {
      TryCategoriesNext(ctx, keys, j, t, rec, before.t);
      var here := TryCategories(ctx, keys[..j + 1], t, rec);
      assert here.Crash? || here.t.calls > t.calls;
      if here.Crash? {
        TryCategoriesStops(ctx, keys, j + 1, t, rec);
      } else {
        CallsGrowAfter(ctx, keys, j + 1, t, rec);
      }
    }
  }

  /** Calls made on a prefix of the categories are not undone by the rest. */
  lemma {:induction false} CallsGrowAfter(ctx: Context, keys: seq<string>, n: nat, t: Tally, rec: Record)
    requires n <= |keys| && TryCategories(ctx, keys[..n], t, rec).Continue?
    ensures var f := TryCategories(ctx, keys, t, rec);
      f.Crash? || f.t.calls >= TryCategories(ctx, keys[..n], t, rec).t.calls
    decreases |keys| - n
  {
    if n == |keys| {
      assert keys[..n] == keys;
    } else {
      var mid := TryCategories(ctx, keys[..n], t, rec);
      TryCategoriesNext(ctx, keys, n, t, rec, mid.t);
      var next := TryCategories(ctx, keys[..n + 1], t, rec);
      if next.Crash? {
        TryCategoriesStops(ctx, keys, n + 1, t, rec);
      } else {
        CallsGrowAfter(ctx, keys, n + 1, t, rec);
      }
    }
  }

  lemma TryCategoryAdvances(ctx: Context, filetype: string, t: Tally, rec: Record)
    ensures Ftf.Grows(t.counts, TryCategory(ctx, filetype, t, rec).t.counts, ctx.limit)
  {
  }

  lemma {:induction false} TryCategoriesAdvances(ctx: Context, keys: seq<string>, t: Tally, rec: Record)
    ensures Ftf.Grows(t.counts, TryCategories(ctx, keys, t, rec).t.counts, ctx.limit)
    decreases |keys|
  {
    if keys == [] {
      Ftf.GrowsRefl(t.counts, ctx.limit);
    } else {
      var init := keys[..|keys| - 1];
      TryCategoriesAdvances(ctx, init, t, rec);
      var f1 := TryCategories(ctx, init, t, rec);
      if f1.Continue? {
        TryCategoryAdvances(ctx, keys[|keys| - 1], f1.t, rec);
        GrowsTransitive(t.counts, f1.t.counts, TryCategory(ctx, keys[|keys| - 1], f1.t, rec).t.counts, ctx.limit);
      }
    }
  }

  lemma GrowsTransitive(a: Dict<string, int>, b: Dict<string, int>, c: Dict<string, int>, limit: int)
    requires Ftf.Grows(a, b, limit) && Ftf.Grows(b, c, limit)
    ensures Ftf.Grows(a, c, limit)
  {
    forall k | k in a.values
      ensures c.values[k] >= a.values[k]
    {
      assert k in b.values;
    }
  }

  lemma StepAdvances(ctx: Context, line: string, t: Tally)
    requires t.counts.Valid()
    ensures Ftf.Grows(t.counts, Step(ctx, line, t).t.counts, ctx.limit)
  {
    if Payload(line).Some? && RecordOf(ctx.parse(Payload(line).value)).Some? {
      var rec := RecordOf(ctx.parse(Payload(line).value)).value;
      assert Step(ctx, line, t).t == TryCategories(ctx, t.counts.keys, t, rec).t;
      TryCategoriesAdvances(ctx, t.counts.keys, t, rec);
    } else {
      Ftf.GrowsRefl(t.counts, ctx.limit);
    }
  }

  /** Over a whole shard the counts only grow, a category at its quota is
      never saved into, and counts that start at most `limit` end at most
      `limit`. */
  lemma {:induction false} RunLinesAdvances(ctx: Context, lines: seq<string>, t0: Tally)
    requires t0.counts.Valid()
    ensures Ftf.Grows(t0.counts, RunLines(ctx, lines, t0).t.counts, ctx.limit)
    decreases |lines|
  {
    if lines == [] {
      Ftf.GrowsRefl(t0.counts, ctx.limit);
    } else {
      var init := lines[..|lines| - 1];
      RunLinesAdvances(ctx, init, t0);
      var f1 := RunLines(ctx, init, t0);
      if f1.Continue? {
        StepAdvances(ctx, lines[|lines| - 1], f1.t);
        GrowsTransitive(t0.counts, f1.t.counts, Step(ctx, lines[|lines| - 1], f1.t).t.counts, ctx.limit);
      }
    }
  }

  /** Counts that start at most `limit` end at most `limit`. */
  lemma QuotaNeverExceeded(ctx: Context, lines: seq<string>, t0: Tally)
    requires t0.counts.Valid()
    requires forall k :: k in t0.counts.values ==> t0.counts.values[k] <= ctx.limit
    ensures var t := RunLines(ctx, lines, t0).t;
      forall k :: k in t.counts.values ==> t.counts.values[k] <= ctx.limit
  {
    RunLinesAdvances(ctx, lines, t0);
  }

  /** The worker stops with `Done` only when every count is at `limit`. */
  lemma {:induction false} DoneOnlyAtQuota(ctx: Context, lines: seq<string>, t0: Tally)
    requires t0.counts.Valid() && RunLines(ctx, lines, t0).Done?
    ensures AllAtLimit(RunLines(ctx, lines, t0).t.counts, ctx.limit)
    decreases |lines|
  {
    var init := lines[..|lines| - 1];
    if !RunLines(ctx, init, t0).Continue? {
      DoneOnlyAtQuota(ctx, init, t0);
    }
  }


  // ---------------------------------------------------------------------
  // run_batch and main

  /** The join loop of the older `run_batch`. `process.join()` returns None,
      which is never 0, so every process of the batch is reported, whatever
      its exit code; nothing is returned. */
  method RunBatch(exits: seq<Option<int>>) returns (reported: seq<nat>)
    ensures |reported| == |exits|
    ensures forall i :: 0 <= i < |reported| ==> reported[i] == i
  {
    reported := [];
    var i := 0;
    while i < |exits|
      invariant i <= |exits| && |reported| == i
      invariant forall j :: 0 <= j < i ==> reported[j] == j
    {
      var returnCode: Option<int> := None;  // what join() returns
      if returnCode != Some(0) {
        reported := reported + [i];
      }
      i := i + 1;
    }
  }

  /** Where the older `main` stands after `n` batches: the counts are those
      reported; it goes on (None) while the quotas were never met, or has
      returned 0 as soon as they were, or -1 at a manifest it could not open,
      with the quotas still unmet. */
  ghost predicate Standing(stop: Option<int>, items: Dict<string, int>, d: Dict<string, int>,
                           batches: nat -> Ftf.BatchOutcome, limit: int, n: nat)
  {
    && items == Ftf.Replay(d, batches, n)
    && (stop.None? || stop == Some(0) || stop == Some(-1))
    && (stop != Some(0) ==> Ftf.NeverDone(d, batches, limit, n))
    && (stop == Some(0) ==> AllAtLimit(items, limit) && Ftf.NeverDone(d, batches, limit, n - 1))
  }

  /** The older `main` from the arguments on. A manifest download that
      returned "" makes `open("")` raise inside the handler, so `main`
      returns -1 there; a failed batch changes nothing but the counts its
      workers reported. */
  method Harvest(args: Option<Ftf.Args>, catalog: Dict<string, string>,
                 manifestOf: string -> Option<seq<string>>, batches: nat -> Ftf.BatchOutcome)
    returns (rc: int, launched: seq<seq<string>>, counts: Dict<string, int>)
    ensures rc == 0 || rc == -1
    ensures args.None? || catalog.keys == [] ==> rc == -1 && launched == []
    ensures args.Some? && catalog.keys != [] ==>
      var a := args.value;
      var names := catalog.keys;
      var plan := PlanAll(names, manifestOf, BatchSize(a.numProcs));
      && launched <= plan
      && counts == Ftf.Replay(Zeros(a.filetypes), batches, |launched|)
      && (rc == 0 && launched != plan ==> AllAtLimit(counts, a.limit))
      && (rc == 0 && !AllAtLimit(counts, a.limit) ==>
            launched == plan && forall j | 0 <= j < |names| :: manifestOf(names[j]).Some?)
      && (rc == -1 ==> exists i :: 0 <= i < |names| && manifestOf(names[i]).None?
                                  && (forall j | 0 <= j < i :: manifestOf(names[j]).Some?)
                                  && launched == PlanAll(names[..i], manifestOf, BatchSize(a.numProcs)))
      && Ftf.NeverDone(Zeros(a.filetypes), batches, a.limit, |launched| - 1)
      && (rc == -1 ==> Ftf.NeverDone(Zeros(a.filetypes), batches, a.limit, |launched|))
  {
    if args.None? {
      return -1, [], EmptyDict();
    }
    if catalog.keys == [] {
      return -1, [], EmptyDict();
    }
    var initial := ZeroCounts(args.value.filetypes);
    var fc := new FileCounts(initial);
    var stop;
    ghost var at;
    stop, launched, at := HarvestIndexes(fc, catalog.keys, manifestOf, args.value.limit, args.value.numProcs,
                                         batches, initial);
    rc := if stop.None? then 0 else stop.value;
    counts := fc.items;
    if stop == Some(-1) {
      assert 0 <= at < |catalog.keys| && manifestOf(catalog.keys[at]).None?
        && forall j | 0 <= j < at :: manifestOf(catalog.keys[j]).Some?;
    }
  }

  /** The loop of the older `main` over the index names. */
  method HarvestIndexes(fc: FileCounts, names: seq<string>, manifestOf: string -> Option<seq<string>>,
                        limit: int, numProcs: int, batches: nat -> Ftf.BatchOutcome,
                        ghost initial: Dict<string, int>)
    returns (stop: Option<int>, launched: seq<seq<string>>, ghost at: nat)
    requires fc.items == initial
    modifies fc
    ensures launched <= PlanAll(names, manifestOf, BatchSize(numProcs))
    ensures stop.None? ==> launched == PlanAll(names, manifestOf, BatchSize(numProcs))
    ensures stop == Some(-1) ==>
      at < |names| && manifestOf(names[at]).None?
      && launched == PlanAll(names[..at], manifestOf, BatchSize(numProcs))
    ensures stop.None? ==> forall j | 0 <= j < |names| :: manifestOf(names[j]).Some?
    ensures stop == Some(-1) ==> forall j | 0 <= j < at :: manifestOf(names[j]).Some?
    ensures Standing(stop, fc.items, initial, batches, limit, |launched|)
  {
    launched := [];
    var i := 0;
    while i < |names|
      invariant i <= |names|
      invariant launched == PlanAll(names[..i], manifestOf, BatchSize(numProcs))
      invariant Standing(None, fc.items, initial, batches, limit, |launched|)
      invariant forall j | 0 <= j < i :: manifestOf(names[j]).Some?
    {
      stop, launched := HarvestName(fc, names, i, manifestOf, limit, numProcs, batches, launched, initial);
      if stop.Some? {
        return stop, launched, i;
      }
      i := i + 1;
    }
    assert names[..i] == names;
    return None, launched, i;
  }

  /** One pass of the loop over the catalog: a manifest that was not
      downloaded ends `main` with -1; else its lines are read. */
  method HarvestName(fc: FileCounts, names: seq<string>, i: nat, manifestOf: string -> Option<seq<string>>,
                     limit: int, numProcs: int, batches: nat -> Ftf.BatchOutcome,
                     launched0: seq<seq<string>>, ghost initial: Dict<string, int>)
    returns (stop: Option<int>, launched: seq<seq<string>>)
    requires i < |names| && launched0 == PlanAll(names[..i], manifestOf, BatchSize(numProcs))
    requires Standing(None, fc.items, initial, batches, limit, |launched0|)
    requires forall j | 0 <= j < i :: manifestOf(names[j]).Some?
    modifies fc
    ensures Standing(stop, fc.items, initial, batches, limit, |launched|)
    ensures stop != Some(-1) ==> forall j | 0 <= j <= i :: manifestOf(names[j]).Some?
    ensures stop.None? ==> launched == PlanAll(names[..i + 1], manifestOf, BatchSize(numProcs))
    ensures stop.Some? ==> launched <= PlanAll(names, manifestOf, BatchSize(numProcs))
    ensures stop == Some(-1) <==> manifestOf(names[i]).None?
    ensures stop == Some(-1) ==> launched == launched0
  {
    ghost var k := BatchSize(numProcs);
    PlanAllNext(names, i, manifestOf, k);
    var manifest := manifestOf(names[i]);
    if manifest.None? {
      PlanAllPrefix(names, i, manifestOf, k);
      return Some(-1), launched0;
    }
    ghost var read;
    stop, launched, read := HarvestIndex(fc, manifest.value, limit, numProcs, batches, launched0, initial);
    if stop.Some? {
      Ftf.PlanStep(names, i, manifestOf, k, manifest.value, read);
      return;
    }
    assert manifest.value[..read] == manifest.value;
  }

  /** The loop of the older `main` over one manifest's lines: it runs a
      batch each time `num_procs` shard URLs are gathered, whatever the
      batch's outcome, and returns 0 once the quotas are met. */
  method HarvestIndex(fc: FileCounts, lines: seq<string>, limit: int, numProcs: int,
                      batches: nat -> Ftf.BatchOutcome, launched0: seq<seq<string>>,
                      ghost initial: Dict<string, int>)
    returns (stop: Option<int>, launched: seq<seq<string>>, ghost read: nat)
    requires Standing(None, fc.items, initial, batches, limit, |launched0|)
    modifies fc
    ensures stop.None? || stop == Some(0)
    ensures Standing(stop, fc.items, initial, batches, limit, |launched|)
    ensures read <= |lines| && (stop.None? ==> read == |lines|)
    ensures launched == launched0 + Chunks(ShardUrls(lines[..read]), BatchSize(numProcs))
  {
    ghost var k := BatchSize(numProcs);
    launched := launched0;
    var batch: seq<string> := [];
    var j := 0;
    while j < |lines|
      invariant j <= |lines|
      invariant launched == launched0 + Chunks(ShardUrls(lines[..j]), k)
      invariant batch == Leftover(ShardUrls(lines[..j]), k)
      invariant Standing(None, fc.items, initial, batches, limit, |launched|)
    {
      if !IsShard(lines[j]) {
        SkipLine(lines, j);
        j := j + 1;
        continue;
      }
      GatherShard(lines, j, numProcs, batch, launched0, launched);
      stop, batch, launched := TakeShard(fc, ShardUrl(lines[j]), batch, launched, limit, numProcs,
                                         batches, initial);
      if stop.Some? {
        return stop, launched, j + 1;
      }
      j := j + 1;
    }
    assert lines[..j] == lines;
    return None, launched, j;
  }

  /** One shard URL: it joins the batch; a full batch is run and emptied;
      then `main` returns 0 when the quotas are met. */
  method TakeShard(fc: FileCounts, url: string, batch: seq<string>, launched: seq<seq<string>>,
                   limit: int, numProcs: int, batches: nat -> Ftf.BatchOutcome,
                   ghost initial: Dict<string, int>)
    returns (stop: Option<int>, pending: seq<string>, grown: seq<seq<string>>)
    requires Standing(None, fc.items, initial, batches, limit, |launched|)
    modifies fc
    ensures stop.None? || stop == Some(0)
    ensures Standing(stop, fc.items, initial, batches, limit, |grown|)
    ensures |batch + [url]| >= numProcs ==> grown == launched + [batch + [url]] && pending == []
    ensures |batch + [url]| < numProcs ==> grown == launched && pending == batch + [url]
  {
    pending := batch + [url];
    grown := launched;
    if |pending| >= numProcs {
      grown := LaunchBatch(fc, batches, launched, pending, initial);
      pending := [];
    }
    if AllAtLimit(fc.items, limit) {
      return Some(0), pending, grown;
    }
    Ftf.NeverDoneNext(initial, batches, limit, |grown|);
    return None, pending, grown;
  }

  /** The older `run_batch` on the next batch: its workers leave the shared
      counts as the batch's outcome reports, and its exit codes are only
      reported. */
  method LaunchBatch(fc: FileCounts, batches: nat -> Ftf.BatchOutcome, launched: seq<seq<string>>,
                     batch: seq<string>, ghost initial: Dict<string, int>)
    returns (grown: seq<seq<string>>)
    requires fc.items == Ftf.Replay(initial, batches, |launched|)
    modifies fc
    ensures grown == launched + [batch]
    ensures fc.items == Ftf.Replay(initial, batches, |grown|)
  {
    var outcome := batches(|launched|);
    var _ := RunBatch(outcome.exits);
    fc.items := Ftf.Overlay(fc.items, outcome.counts);
    grown := launched + [batch];
  }
}
