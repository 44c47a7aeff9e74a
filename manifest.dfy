/** How `main` turns a crawl index's manifest into batches of shard URLs, in
    src/ftf.py and filetypefetcher/ftf.py alike: keep the lines that end in
    ".gz", put the archive host in front, and cut the result into groups of
    `num_procs`, never running a trailing group that is shorter. */
module Manifest {
  import opened Py

  const ShardHost := "https://data.commoncrawl.org/"

  /** `url_suffix.strip("\n")[-3:] == ".gz"` */
  predicate IsShard(line: string)
  {
    LastChars(Strip(line, '\n'), 3) == ".gz"
  }

  /** `"https://data.commoncrawl.org/" + url_suffix.strip("\n")` */
  function ShardUrl(line: string): string
  {
    ShardHost + Strip(line, '\n')
  }

  /** The shard URLs a manifest lists, in order. */
  function ShardUrls(lines: seq<string>): seq<string>
    decreases |lines|
  {
    if lines == [] then []
    else
      var last := lines[|lines| - 1];
      ShardUrls(lines[..|lines| - 1]) + (if IsShard(last) then [ShardUrl(last)] else [])
  }

  /** A URL on the archive host whose path ends in ".gz". */
  predicate OnShardHost(u: string)
  {
    |u| >= |ShardHost| + 3 && u[..|ShardHost|] == ShardHost && u[|u| - 3..] == ".gz"
  }

  /** The URL of a shard line is on the archive host and ends in ".gz". */
  lemma ShardUrlShape(line: string)
    requires IsShard(line)
    ensures OnShardHost(ShardUrl(line))
  {
    var s := Strip(line, '\n');
    LastCharsIsSuffixTest(s, ".gz");
    var u := ShardUrl(line);
    assert u[|u| - 3..] == s[|s| - 3..];
  }

  /** Every shard URL is on the archive host and ends in ".gz". */
  lemma {:induction false} ShardUrlsShape(lines: seq<string>)
    ensures forall u :: u in ShardUrls(lines) ==> OnShardHost(u)
    decreases |lines|
  {
    if lines != [] {
      var last := lines[|lines| - 1];
      ShardUrlsShape(lines[..|lines| - 1]);
      if IsShard(last) {
        ShardUrlShape(last);
      }
    }
  }

  /** The URLs of one more line. */
  lemma ShardUrlsNext(lines: seq<string>, j: nat)
    requires j < |lines|
    ensures ShardUrls(lines[..j + 1])
         == ShardUrls(lines[..j]) + if IsShard(lines[j]) then [ShardUrl(lines[j])] else []
  {
    assert lines[..j + 1][..j] == lines[..j];
  }

  /** The URLs of the first `n` lines come first among all the URLs. */
  lemma {:induction false} ShardUrlsPrefix(lines: seq<string>, n: nat)
    requires n <= |lines|
    ensures ShardUrls(lines[..n]) <= ShardUrls(lines)
    decreases |lines| - n
  {
    if n < |lines| {
      ShardUrlsPrefix(lines, n + 1);
      assert lines[..n + 1][..n] == lines[..n];
    } else {
      assert lines[..n] == lines;
    }
  }

  /** How many URLs make a batch: the least positive length at which
      `len(batch_cdx_urls) >= num_procs` holds, so `num_procs` URLs, or one
      when `num_procs` is below 1. */
  function BatchSize(numProcs: int): (k: nat)
    ensures k >= 1 && k >= numProcs && (k == 1 || k == numProcs)
  {
    if numProcs < 1 then 1 else numProcs
  }

  /** Consecutive groups of `k` URLs; the fewer than `k` left over are not
      a group. */
  function Chunks(urls: seq<string>, k: nat): (groups: seq<seq<string>>)
    requires k >= 1
    decreases |urls|
  {
    if |urls| < k then [] else [urls[..k]] + Chunks(urls[k..], k)
  }

  /** Every group holds exactly `k` URLs. */
  lemma {:induction false} ChunksSized(urls: seq<string>, k: nat)
    requires k >= 1
    ensures forall g :: g in Chunks(urls, k) ==> |g| == k
    decreases |urls|
  {
    if |urls| >= k {
      ChunksSized(urls[k..], k);
    }
  }

  /** All the groups one after the other. */
  function Flatten(groups: seq<seq<string>>): seq<string>
  {
    if groups == [] then [] else groups[0] + Flatten(groups[1..])
  }

  /** The groups cover a prefix of the URLs, in order, and leave fewer than
      `k` behind. */
  lemma {:induction false} ChunksCover(urls: seq<string>, k: nat)
    requires k >= 1
    ensures var covered := Flatten(Chunks(urls, k));
      |covered| <= |urls| && urls[..|covered|] == covered && |urls| - |covered| < k
    decreases |urls|
  {
    if |urls| >= k {
      ChunksCover(urls[k..], k);
      var groups := Chunks(urls, k);
      assert groups[1..] == Chunks(urls[k..], k);
      var rest := Flatten(Chunks(urls[k..], k));
      assert Flatten(groups) == urls[..k] + rest;
      assert urls[..k + |rest|] == urls[..k] + urls[k..][..|rest|];
    }
  }

  /** The URLs after the last whole group: the batch still being gathered. */
  function Leftover(urls: seq<string>, k: nat): (rest: seq<string>)
    requires k >= 1
    ensures |rest| < k
    decreases |urls|
  {
    if |urls| < k then urls else Leftover(urls[k..], k)
  }

  /** One more URL either completes the pending batch, which becomes the next
      group, or joins it. */
  lemma {:induction false} ChunksSnoc(urls: seq<string>, u: string, k: nat)
    requires k >= 1
    ensures var pending := Leftover(urls, k) + [u];
      if |pending| == k then
        Chunks(urls + [u], k) == Chunks(urls, k) + [pending] && Leftover(urls + [u], k) == []
      else
        Chunks(urls + [u], k) == Chunks(urls, k) && Leftover(urls + [u], k) == pending
    decreases |urls|
  {
    if |urls| >= k {
      assert (urls + [u])[..k] == urls[..k];
      assert (urls + [u])[k..] == urls[k..] + [u];
      ChunksSnoc(urls[k..], u, k);
    } else if |urls| + 1 == k {
      assert (urls + [u])[..k] == urls + [u];
      assert (urls + [u])[k..] == [];
    }
  }

  /** A line that names no shard leaves the URLs gathered so far as they are. */
  lemma SkipLine(lines: seq<string>, j: nat)
    requires j < |lines| && !IsShard(lines[j])
    ensures ShardUrls(lines[..j + 1]) == ShardUrls(lines[..j])
  {
    ShardUrlsNext(lines, j);
  }

  /** A shard line: its URL joins the pending batch, which then either
      reaches `num_procs` URLs and is the next group, or stays pending. */
  lemma GatherShard(lines: seq<string>, j: nat, numProcs: int, pending: seq<string>,
                    before: seq<seq<string>>, groups: seq<seq<string>>)
    requires j < |lines| && IsShard(lines[j])
    requires groups == before + Chunks(ShardUrls(lines[..j]), BatchSize(numProcs))
    requires pending == Leftover(ShardUrls(lines[..j]), BatchSize(numProcs))
    ensures var next := pending + [ShardUrl(lines[j])];
      var k := BatchSize(numProcs);
      if |next| >= numProcs then
        groups + [next] == before + Chunks(ShardUrls(lines[..j + 1]), k)
        && [] == Leftover(ShardUrls(lines[..j + 1]), k)
      else
        groups == before + Chunks(ShardUrls(lines[..j + 1]), k)
        && next == Leftover(ShardUrls(lines[..j + 1]), k)
  {
    var k := BatchSize(numProcs);
    ShardUrlsNext(lines, j);
    ChunksSnoc(ShardUrls(lines[..j]), ShardUrl(lines[j]), k);
    assert |pending + [ShardUrl(lines[j])]| >= numProcs <==> |pending + [ShardUrl(lines[j])]| == k;
  }

  /** The groups cut from the first lines of a manifest come first among
      those cut from all of it. */
  lemma ChunksOfPrefix(lines: seq<string>, n: nat, k: nat)
    requires k >= 1 && n <= |lines|
    ensures Chunks(ShardUrls(lines[..n]), k) <= Chunks(ShardUrls(lines), k)
  {
    ShardUrlsPrefix(lines, n);
    ChunksMonotone(ShardUrls(lines[..n]), ShardUrls(lines), k);
  }

  /** More URLs never take a group back. */
  lemma {:induction false} ChunksMonotone(u: seq<string>, v: seq<string>, k: nat)
    requires k >= 1 && u <= v
    ensures Chunks(u, k) <= Chunks(v, k)
    decreases |u|
  {
    if |u| >= k {
      assert u[..k] == v[..k];
      assert u[k..] <= v[k..];
      ChunksMonotone(u[k..], v[k..], k);
    }
  }

  /** The batches of `main` over the catalog names in order: the groups of
      each manifest that was downloaded; a manifest that was not gives none. */
  function PlanAll(names: seq<string>, manifestOf: string -> Option<seq<string>>, k: nat): seq<seq<string>>
    requires k >= 1
    decreases |names|
  {
    if names == [] then []
    else
      PlanAll(names[..|names| - 1], manifestOf, k)
      + match manifestOf(names[|names| - 1])
        case None => []
        case Some(lines) => Chunks(ShardUrls(lines), k)
  }

  /** One more name adds that name's groups, if its manifest was downloaded. */
  lemma PlanAllNext(names: seq<string>, i: nat, manifestOf: string -> Option<seq<string>>, k: nat)
    requires k >= 1 && i < |names|
    ensures manifestOf(names[i]).None? ==>
      PlanAll(names[..i + 1], manifestOf, k) == PlanAll(names[..i], manifestOf, k)
    ensures manifestOf(names[i]).Some? ==>
      PlanAll(names[..i + 1], manifestOf, k)
      == PlanAll(names[..i], manifestOf, k) + Chunks(ShardUrls(manifestOf(names[i]).value), k)
  {
    assert names[..i + 1][..i] == names[..i];
  }

  /** A plan over fewer names is a prefix of the plan over more. */
  lemma {:induction false} PlanAllPrefix(names: seq<string>, n: nat, manifestOf: string -> Option<seq<string>>, k: nat)
    requires k >= 1 && n <= |names|
    ensures PlanAll(names[..n], manifestOf, k) <= PlanAll(names, manifestOf, k)
    decreases |names| - n
  {
    if n < |names| {
      PlanAllPrefix(names, n + 1, manifestOf, k);
      assert names[..n + 1][..n] == names[..n];
    } else {
      assert names[..n] == names;
    }
  }

  /** Every planned batch holds exactly `k` shard URLs. */
  lemma {:induction false} PlanAllBatches(names: seq<string>, manifestOf: string -> Option<seq<string>>, k: nat)
    requires k >= 1
    ensures forall b :: b in PlanAll(names, manifestOf, k) ==> |b| == k
    ensures forall b, u :: b in PlanAll(names, manifestOf, k) && u in b ==> OnShardHost(u)
    decreases |names|
  {
    if names != [] {
      PlanAllBatches(names[..|names| - 1], manifestOf, k);
      match manifestOf(names[|names| - 1])
      case None =>
      case Some(lines) =>
        var urls := ShardUrls(lines);
        ShardUrlsShape(lines);
        ChunksCover(urls, k);
        ChunksSized(urls, k);
        forall b, u | b in Chunks(urls, k) && u in b ensures u in urls {
          ChunkMember(urls, k, b, u);
        }
    }
  }

  /** A URL in a group is one of the URLs cut. */
  lemma {:induction false} ChunkMember(urls: seq<string>, k: nat, g: seq<string>, u: string)
    requires k >= 1 && g in Chunks(urls, k) && u in g
    ensures u in urls
    decreases |urls|
  {
    if |urls| >= k {
      if g != urls[..k] {
        ChunkMember(urls[k..], k, g, u);
      }
    }
  }
}
