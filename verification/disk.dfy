/** `get_disk_usage` (backend/main.py): the last line of `df -h` split on
    blanks. The command is outside the model: its exit code and output are
    parameters, as is whether the share is mounted. */
module DiskUsage {
  import opened Wrappers
  import opened Text
  import opened Http

  datatype Usage =
    | Usage(total: string, used: string, available: string, percentUsed: string, mountPoint: string)
    | Raw(raw: string)

  const DiskError: HttpError := HttpError(500, "Error obteniendo uso de disco")

  function GetDiskUsage(mounted: bool, code: int, stdout: string, mountPoint: string): (r: Result<Usage, HttpError>)
    ensures !mounted ==> r == Failure(QnapNotMounted)
    ensures mounted && code != 0 ==> r == Failure(DiskError)
    ensures mounted && code == 0 ==> r.Success?
    ensures r.Success? && r.value.Usage? ==>
      r.value.mountPoint == mountPoint && |Words(stdout)| >= 5
      && [r.value.total, r.value.used, r.value.available, r.value.percentUsed] == Words(stdout)[1..5]
    ensures r.Success? ==> (r.value.Raw? <==> |Words(stdout)| < 5)
    ensures r.Success? && r.value.Raw? ==> r.value.raw == stdout
  {
    if !mounted then Failure(QnapNotMounted)
    else if code != 0 then Failure(DiskError)
    else
      var parts := Words(stdout);
      if |parts| >= 5 then Success(Usage(parts[1], parts[2], parts[3], parts[4], mountPoint))
      else Success(Raw(stdout))
  }

  /** A `df` line of blank-free columns, as the command prints it with its
      trailing newline, is read back column by column: size, used, available
      and use% are columns 2 to 5. */
  lemma DfLineRoundTrip(columns: seq<string>, mountPoint: string)
    requires |columns| >= 5
    requires forall i :: 0 <= i < |columns| ==> IsWord(columns[i])
    ensures GetDiskUsage(true, 0, Join(columns, ' ') + "\n", mountPoint)
      == Success(Usage(columns[1], columns[2], columns[3], columns[4], mountPoint))
  {
    WordsJoin(columns, "\n");
    NewlineHasNoWords();
    assert columns + [] == columns;
  }

  /** A line with fewer than five columns is passed through unparsed. */
  lemma DfShortLine(columns: seq<string>, mountPoint: string)
    requires |columns| < 5
    requires forall i :: 0 <= i < |columns| ==> IsWord(columns[i])
    ensures GetDiskUsage(true, 0, Join(columns, ' ') + "\n", mountPoint)
      == Success(Raw(Join(columns, ' ') + "\n"))
  {
    WordsJoin(columns, "\n");
    NewlineHasNoWords();
    assert columns + [] == columns;
  }

  /** The trailing newline of the command output holds no column. */
  lemma NewlineHasNoWords()
    ensures Words("\n") == []
  {
    assert IsSpace('\n') && "\n"[1..] == "";
  }
}
