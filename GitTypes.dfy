/**
 * The values that flow between the git command line and the commit objects:
 * the records decoded from git's custom log format, the commit entity built
 * from them, and the shapes of the two external collaborators (the process
 * runner and the JSON array parser), which the operations take as parameters.
 */
module GitTypes {
  import opened Wrappers

  /** A Go `error`: only its message is observable. */
  datatype GitError = GitError(message: string)

  /** The committer part of one log record (the source spells the field `Commiter`). */
  datatype Committer = Committer(name: string, email: string, date: string)

  /** One element of the JSON array that the repaired log output encodes (GitCommitFormat). */
  datatype CommitFormat = CommitFormat(commit: string, commiter: Committer, subject: string, body: string)

  /** The commit entity handed to callers (the GitCommitBase inside a GitCommitCli). */
  datatype GitCommit = GitCommit(commit: string, author: string, date: string, message: string, checkoutPath: string)

  /** A process invocation: the program and its argument list. */
  datatype Command = Command(name: string, args: seq<string>)

  /** What the process runner reports: captured standard output, standard error and error. */
  datatype ProcessOutput = ProcessOutput(stdout: string, stderr: string, err: Option<GitError>)

  /** The runner that spawns a command and waits for it (runCommand over exec.CommandContext). */
  type CommandRunner = Command -> ProcessOutput

  /** A JSON array decoder for commit records (json.Unmarshal into []GitCommitFormat). */
  type JsonParser = string -> Result<seq<CommitFormat>, GitError>
}
