/**
 * The argument list of the history query: a fixed prefix, exactly one
 * revision-range token chosen by a precedence-ordered four-way choice on
 * `from` and `to`, and a fixed suffix (count, date style, output format).
 */
module LogRange {
  import opened Decimal

  /** The range token "<lower>^..<upper>": commits reachable from upper, excluding lower and its ancestors. */
  function ExclusiveRange(lower: string, upper: string): string
  {
    lower + "^.." + upper
  }

  /**
   * getCommandForLogRange: `from` and `to` both set selects from^..to, only `from`
   * selects from^..branchRef, only `to` selects `to`; with neither, the incoming
   * range arguments are kept. The result is base, then the range, then extra.
   */
  function GetCommandForLogRange(branchRef: string, from: string, to: string,
                                 rangeCmdArgs: seq<string>, baseCmdArgs: seq<string>,
                                 extraCmdArgs: seq<string>): (r: seq<string>)
    ensures |r| == |baseCmdArgs| + (if from != "" || to != "" then 1 else |rangeCmdArgs|) + |extraCmdArgs|
    ensures r[..|baseCmdArgs|] == baseCmdArgs
    ensures r[|r| - |extraCmdArgs|..] == extraCmdArgs
    ensures from != "" && to != "" ==> r[|baseCmdArgs|] == ExclusiveRange(from, to)
    ensures from != "" && to == "" ==> r[|baseCmdArgs|] == ExclusiveRange(from, branchRef)
    ensures from == "" && to != "" ==> r[|baseCmdArgs|] == to
    ensures from == "" && to == "" ==> r[|baseCmdArgs|..|r| - |extraCmdArgs|] == rangeCmdArgs
  {
    var range :=
      if from != "" && to != "" then [ExclusiveRange(from, to)]
      else if from != "" then [ExclusiveRange(from, branchRef)]
      else if to != "" then [to]
      else rangeCmdArgs;
    baseCmdArgs + (range + extraCmdArgs)
  }

  /** The three argument slices GetCommits sets up, joined by getCommandForLogRange. */
  function LogCommandArgs(rootDir: string, branchRef: string, numCommits: int,
                          from: string, to: string, gitFormat: string): (r: seq<string>)
    ensures |r| == 8
    ensures r[..3] == ["-C", rootDir, "log"]
    ensures from != "" && to != "" ==> r[3] == ExclusiveRange(from, to)
    ensures from != "" && to == "" ==> r[3] == ExclusiveRange(from, branchRef)
    ensures from == "" && to != "" ==> r[3] == to
    ensures from == "" && to == "" ==> r[3] == branchRef
    ensures r[4..] == ["-n", Itoa(numCommits), "--date=iso-strict", gitFormat]
  {
    var baseCmdArgs := ["-C", rootDir, "log"];
    var rangeCmdArgs := [branchRef];
    var extraCmdArgs := ["-n", Itoa(numCommits), "--date=iso-strict", gitFormat];
    GetCommandForLogRange(branchRef, from, to, rangeCmdArgs, baseCmdArgs, extraCmdArgs)
  }

  /** With both bounds set, neither the branch nor the incoming range arguments matter. */
  lemma BoundedRangeIgnoresBranch(b1: string, b2: string, from: string, to: string,
                                  range1: seq<string>, range2: seq<string>,
                                  baseCmdArgs: seq<string>, extraCmdArgs: seq<string>)
    requires from != "" && to != ""
    ensures GetCommandForLogRange(b1, from, to, range1, baseCmdArgs, extraCmdArgs)
         == GetCommandForLogRange(b2, from, to, range2, baseCmdArgs, extraCmdArgs)
  {
  }

  /** The count argument reads back as numCommits, whatever its sign. */
  lemma CountArgumentRoundTrip(rootDir: string, branchRef: string, numCommits: int,
                               from: string, to: string, gitFormat: string)
    ensures Atoi(LogCommandArgs(rootDir, branchRef, numCommits, from, to, gitFormat)[5]).Some?
    ensures Atoi(LogCommandArgs(rootDir, branchRef, numCommits, from, to, gitFormat)[5]).value == numCommits
  {
    var r := LogCommandArgs(rootDir, branchRef, numCommits, from, to, gitFormat);
    assert r[5] == r[4..][1];
    ItoaRoundTrip(numCommits);
  }
}
