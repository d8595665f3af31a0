/**
 * The GitCliManager operations that drive git and decode its answers:
 * GetCommits (a history query over a revision range) and GitShow (one
 * commit by hash or tag), with the two lookups that delegate to GitShow.
 * The process runner, the JSON parser and the output-format template are
 * parameters.
 */
module GitCliManager {
  import opened Wrappers
  import opened GitTypes
  import opened CommitModel
  import opened LogRange
  import opened LogDecoder

  /** The single-commit query: `git -C rootDir show <ref> --date=iso-strict <format> -s`. */
  function ShowCommand(rootDir: string, ref: string, gitFormat: string): (c: Command)
    ensures c.name == "git" && |c.args| == 7
    ensures c.args[..3] == ["-C", rootDir, "show"] && c.args[3] == ref
    ensures c.args[4..] == ["--date=iso-strict", gitFormat, "-s"]
  {
    Command("git", ["-C", rootDir, "show", ref, "--date=iso-strict", gitFormat, "-s"])
  }

  /**
   * GitShow's selection on the show output `out`: the first decoded commit when
   * there is one; no commit otherwise, together with the decoding error (none for
   * an empty output or an empty array).
   */
  predicate SelectsFirstCommit(out: string, rootDir: string, parse: JsonParser,
                               commit: Option<GitCommit>, err: Option<GitError>)
  {
    if out == "" then commit == None && err == None
    else match parse(RepairLogOutput(out))
      case Failure(e) => commit == None && err == Some(e)
      case Success(records) =>
        err == None &&
        commit == if records == [] then None else Some(ToCommit(records[0], rootDir))
  }

  /**
   * Selecting from a decoded batch: a decoding error or an empty batch gives no
   * commit and the decoding error as it is; otherwise the first commit.
   */
  lemma SelectionFollowsDecoding(out: string, rootDir: string, parse: JsonParser,
                                 commits: seq<GitCommit>, decodeErr: Option<GitError>)
    requires IsDecodingOf(out, rootDir, parse, commits, decodeErr)
    ensures decodeErr.Some? || commits == [] ==> SelectsFirstCommit(out, rootDir, parse, None, decodeErr)
    ensures decodeErr.None? && commits != [] ==> SelectsFirstCommit(out, rootDir, parse, Some(commits[0]), None)
  {
  }

  /**
   * GitShow runs the show query and keeps the first decoded commit. The runner's
   * own error is discarded: only its standard output decides the result.
   */
  method GitShow(run: CommandRunner, parse: JsonParser, rootDir: string, hash: string,
                 gitFormat: string)
    returns (commit: Option<GitCommit>, err: Option<GitError>)
    ensures SelectsFirstCommit(run(ShowCommand(rootDir, hash, gitFormat)).stdout, rootDir, parse, commit, err)
    ensures commit.Some? ==> err == None && commit.value.checkoutPath == rootDir
  {
    var output := run(ShowCommand(rootDir, hash, gitFormat));
    var commits, decodeErr := ProcessGitLogOutput(output.stdout, rootDir, parse);
    if decodeErr.Some? || |commits| == 0 {
      return None, decodeErr;
    }
    return Some(commits[0]), None;
  }

  /** GetCommitsForTag: the commit a tag names, through GitShow. */
  method GetCommitsForTag(run: CommandRunner, parse: JsonParser, checkoutPath: string, tag: string,
                          gitFormat: string)
    returns (commit: Option<GitCommit>, err: Option<GitError>)
    ensures SelectsFirstCommit(run(ShowCommand(checkoutPath, tag, gitFormat)).stdout, checkoutPath, parse, commit, err)
  {
    commit, err := GitShow(run, parse, checkoutPath, tag, gitFormat);
  }

  /** GetCommitForHash: the commit a hash names, through GitShow. */
  method GetCommitForHash(run: CommandRunner, parse: JsonParser, checkoutPath: string,
                          commitHash: string, gitFormat: string)
    returns (commit: Option<GitCommit>, err: Option<GitError>)
    ensures SelectsFirstCommit(run(ShowCommand(checkoutPath, commitHash, gitFormat)).stdout, checkoutPath, parse, commit, err)
  {
    commit, err := GitShow(run, parse, checkoutPath, commitHash, gitFormat);
  }

  /**
   * GetCommits runs `git` with the range arguments of LogCommandArgs; a runner error
   * is returned with no commits, otherwise the output is decoded. `branch` is unused,
   * as in the source.
   */
  method GetCommits(run: CommandRunner, parse: JsonParser, branchRef: string, branch: string,
                    rootDir: string, numCommits: int, from: string, to: string, gitFormat: string)
    returns (commits: seq<GitCommit>, err: Option<GitError>)
    ensures var o := run(Command("git", LogCommandArgs(rootDir, branchRef, numCommits, from, to, gitFormat)));
      if o.err.Some? then commits == [] && err == o.err
      else IsDecodingOf(o.stdout, rootDir, parse, commits, err)
    ensures err.Some? ==> commits == []
  {
    var cmdArgs := LogCommandArgs(rootDir, branchRef, numCommits, from, to, gitFormat);
    var output := run(Command("git", cmdArgs));
    if output.err.Some? {
      return [], output.err;
    }
    commits, err := ProcessGitLogOutput(output.stdout, rootDir, parse);
  }
}
