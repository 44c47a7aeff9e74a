/** Argument validation of the older draft, ftf/commands.py: a
    `validate_args` that only checks and returns 1 on failure, and a `main`
    that ignores what it returns and builds the count map. */
module CommandsDraft {
  import opened Py
  import opened Cdx
  import Commands

  /** The guard chain of the draft `validate_args`: it creates nothing and
      rewrites nothing. A reference definition: `NewerAcceptsMore` and
      `MissingOutputOnlyNewerCreates` compare it with the newer validation. */
  function ValidateArgs(limit: int, numProcs: int, output: string, cpuCount: int, disk: Commands.Disk): (rc: int)
    ensures rc == 0 || rc == 1
    ensures rc == 0 <==> limit > 0 && numProcs <= cpuCount && Commands.IsDir(disk, output)
  {
    if limit <= 0 then 1
    else if numProcs > cpuCount then 1
    else if !Commands.IsDir(disk, output) then 1
    else 0
  }

  /** What the draft accepts the newer validation accepts too, without
      touching the disk; and where the output already is a directory the two
      agree, the draft's 1 being the newer -1. */
  lemma NewerAcceptsMore(limit: int, numProcs: int, output: string, tolerance: int,
                         cpuCount: int, disk: Commands.Disk, mkdir: Commands.Mkdir)
    ensures ValidateArgs(limit, numProcs, output, cpuCount, disk) == 0 ==>
      var v := Commands.Validation(limit, numProcs, output, tolerance, cpuCount, disk, mkdir);
      v.rc == 0 && v.disk == disk
    ensures Commands.IsDir(disk, output) ==>
      var v := Commands.Validation(limit, numProcs, output, tolerance, cpuCount, disk, mkdir);
      (ValidateArgs(limit, numProcs, output, cpuCount, disk) == 1 <==> v.rc == -1)
  {
  }

  /** An output path that does not exist yet passes the newer validation
      when `mkdir` creates it, but never the draft's. */
  lemma MissingOutputOnlyNewerCreates(limit: int, numProcs: int, output: string, tolerance: int,
                                      cpuCount: int, disk: Commands.Disk)
    requires limit > 0 && numProcs <= cpuCount && output != "" && !Commands.Exists(disk, output)
    ensures ValidateArgs(limit, numProcs, output, cpuCount, disk) == 1
    ensures Commands.Validation(limit, numProcs, output, tolerance, cpuCount, disk, Commands.Made).rc == 0
  {
  }

  /** The draft `main`: the validation result is dropped, and `file_count`
      maps every requested type, once, to 0. */
  method RunMain(limit: int, filetypes: seq<string>, numProcs: int, output: string,
                 cpuCount: int, disk: Commands.Disk)
    returns (fileCount: Dict<string, int>)
    ensures fileCount.Valid()
    ensures fileCount.values == map ext | ext in filetypes :: 0
    ensures forall ext :: ext in filetypes <==> ext in fileCount.keys
  {
    var _ := ValidateArgs(limit, numProcs, output, cpuCount, disk);
    fileCount := ZeroCounts(filetypes);
    ZerosMapsEveryTypeToZero(filetypes);
    forall ext
      ensures ext in filetypes <==> ext in fileCount.keys
    {
      assert ext in fileCount.keys <==> ext in fileCount.values.Keys;
    }
  }
}
