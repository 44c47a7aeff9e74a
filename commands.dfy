/** Argument validation of src/commands.py: `validate_args`, which checks
    the parsed command line, creates the output directory when it is
    missing and appends a "/" to the output path, and `get_validated_args`.

    Parsing the command line, the CPU count and the file system are inputs:
    the parsed values come in a `Namespace`, the file system as a `Disk`,
    and how the one `mkdir` call would end as a `Mkdir`. */
module Commands {
  import opened Py

  /** The directories and the other files that exist, each by its name
      without trailing slashes (the root is ""). A path with trailing slashes
      can only name a directory, and the empty path names nothing. */
  datatype Disk = Disk(dirs: set<string>, files: set<string>)

  /** The name a path resolves to: `p.rstrip("/")`. */
  function Node(p: string): string
  {
    StripRight(p, '/')
  }

  /** `os.path.isdir(p)` */
  predicate IsDir(disk: Disk, p: string)
  {
    p != "" && Node(p) in disk.dirs
  }

  /** `os.path.exists(p)` */
  predicate Exists(disk: Disk, p: string)
  {
    IsDir(disk, p) || (p != "" && Node(p) == p && p in disk.files)
  }

  /** Appending a "/" names the same node. */
  lemma SlashKeepsNode(p: string)
    requires |p| > 0
    ensures Node(WithTrailingSlash(p)) == Node(p)
  {
    if p[|p| - 1] != '/' {
      assert (p + "/")[..|p|] == p;
    }
  }

  /** How `os.mkdir(p)` ends for a path that does not exist: it creates the
      directory, or raises FileNotFoundError (a missing parent, or the empty
      path), or raises anything else. */
  datatype Mkdir = Made | NotFound | OtherError

  /** `os.mkdir(p)` for a path that does not exist; the empty path always
      raises FileNotFoundError. None when it raised. */
  function MakeDir(disk: Disk, p: string, mkdir: Mkdir): (r: Option<Disk>)
    ensures r.Some? <==> p != "" && mkdir == Made
    ensures r.Some? ==> r.value == disk.(dirs := disk.dirs + {Node(p)}) && IsDir(r.value, p)
  {
    if p == "" || mkdir != Made then None else Some(disk.(dirs := disk.dirs + {Node(p)}))
  }

  /** The parsed command line, whose `output` field `validate_args`
      rewrites. */
  class Namespace {
    var limit: int
    var filetypes: seq<string>
    var numProcs: int
    var output: string
    var tolerance: int

    constructor (limit: int, filetypes: seq<string>, numProcs: int, output: string, tolerance: int)
      ensures this.limit == limit && this.filetypes == filetypes && this.numProcs == numProcs
      ensures this.output == output && this.tolerance == tolerance
    {
      this.limit := limit;
      this.filetypes := filetypes;
      this.numProcs := numProcs;
      this.output := output;
      this.tolerance := tolerance;
    }
  }

  /** What `validate_args` decides: its result, the disk afterwards and the
      output path afterwards. */
  datatype Verdict = Verdict(rc: int, disk: Disk, output: string)

  /** The guard chain of `validate_args`. The tolerance is an argument
      because the code reads it, but only after `return 0`, so it never
      decides anything. */
  function Validation(limit: int, numProcs: int, output: string, tolerance: int,
                      cpuCount: int, disk: Disk, mkdir: Mkdir): (v: Verdict)
    ensures v.rc == 0 || v.rc == -1
    ensures v.rc == 0 <==>
      && limit > 0 && numProcs <= cpuCount
      && (IsDir(disk, output) || (!Exists(disk, output) && output != "" && mkdir == Made))
    ensures v.rc == -1 ==> v.output == output
    ensures v.rc == 0 ==> |output| > 0 && v.output == WithTrailingSlash(output)
    ensures v.disk == disk || (v.disk == disk.(dirs := disk.dirs + {Node(output)}) && !Exists(disk, output))
    ensures v.rc == 0 ==> IsDir(v.disk, output) && IsDir(v.disk, v.output)
  {
    if limit <= 0 then Verdict(-1, disk, output)
    else if numProcs > cpuCount then Verdict(-1, disk, output)
    else
      var made := if Exists(disk, output) then Some(disk) else MakeDir(disk, output, mkdir);
      if made.None? then Verdict(-1, disk, output)
      else if !IsDir(made.value, output) then Verdict(-1, made.value, output)
      else
        SlashKeepsNode(output);
        Verdict(0, made.value, WithTrailingSlash(output))
  }

  /** `validate_args(args)`. */
  method ValidateArgs(args: Namespace, cpuCount: int, disk: Disk, mkdir: Mkdir)
    returns (rc: int, after: Disk)
    modifies args
    ensures var v := Validation(old(args.limit), old(args.numProcs), old(args.output), old(args.tolerance),
                                cpuCount, disk, mkdir);
      rc == v.rc && after == v.disk && args.output == v.output
    ensures args.limit == old(args.limit) && args.filetypes == old(args.filetypes)
    ensures args.numProcs == old(args.numProcs) && args.tolerance == old(args.tolerance)
  {
    after := disk;
    if args.limit <= 0 {
      return -1, after;
    }
    if args.numProcs > cpuCount {
      return -1, after;
    }
    if !Exists(after, args.output) {
      var made := MakeDir(after, args.output, mkdir);
      if made.None? {
        return -1, after;
      }
      after := made.value;
    }
    if !IsDir(after, args.output) {
      return -1, after;
    }
    if args.output[|args.output| - 1] != '/' {
      args.output := args.output + "/";
    }
    return 0, after;
  }

  /** `get_validated_args()` on a parsed command line: the arguments when
      validation returned 0, None (the -1 it returns) otherwise. */
  method GetValidatedArgs(args: Namespace, cpuCount: int, disk: Disk, mkdir: Mkdir)
    returns (result: Option<Namespace>, after: Disk)
    modifies args
    ensures var v := Validation(old(args.limit), old(args.numProcs), old(args.output), old(args.tolerance),
                                cpuCount, disk, mkdir);
      && (result.Some? <==> v.rc == 0)
      && (result.Some? ==> result.value == args)
      && after == v.disk && args.output == v.output
  {
    var rc;
    rc, after := ValidateArgs(args, cpuCount, disk, mkdir);
    if rc == -1 {
      return None, after;
    }
    return Some(args), after;
  }

  /** Any tolerance passes, 0 and negative ones included: the verdict does
      not depend on it. */
  lemma ToleranceNeverChecked(limit: int, numProcs: int, output: string, t1: int, t2: int,
                              cpuCount: int, disk: Disk, mkdir: Mkdir)
    ensures Validation(limit, numProcs, output, t1, cpuCount, disk, mkdir)
         == Validation(limit, numProcs, output, t2, cpuCount, disk, mkdir)
  {
  }

  /** A validated output path ends in "/", names a directory, and a second
      validation leaves it and the disk as they are. */
  lemma ValidationIdempotent(limit: int, numProcs: int, output: string, tolerance: int,
                             cpuCount: int, disk: Disk, mkdir: Mkdir, mkdir2: Mkdir)
    requires Validation(limit, numProcs, output, tolerance, cpuCount, disk, mkdir).rc == 0
    ensures var v := Validation(limit, numProcs, output, tolerance, cpuCount, disk, mkdir);
      && v.output[|v.output| - 1] == '/'
      && Validation(limit, numProcs, v.output, tolerance, cpuCount, v.disk, mkdir2) == v
  {
    var v := Validation(limit, numProcs, output, tolerance, cpuCount, disk, mkdir);
    TrailingSlashIdempotent(output);
  }
}
