# git-sensor: command construction and log decoding of the git CLI manager

This project models the part of git-sensor's `GitCliManagerImpl` that turns a
commit query into a `git` command line and decodes git's answer into commits:

- **Range arguments** (`GetCommits`, `getCommandForLogRange`). The history query is
  `-C <rootDir> log`, then exactly one revision-range token, then
  `-n <count> --date=iso-strict <format>`. The token comes from a four-way choice
  checked in precedence order:
  - `from` and `to` both set gives `from^..to`;
  - only `from` gives `from^..branchRef`;
  - only `to` gives `to`;
  - neither gives `branchRef`.
- **Log decoding** (`processGitLogOutput`). git prints each commit as a JSON object
  fragment followed by `,`. An empty output is an empty batch with no error.
  Otherwise the last character is dropped, the rest is wrapped in `[`…`]` and parsed
  as a JSON array. A parse failure returns the error and no commits. On success each
  record becomes, in order, a commit:
  - author `Name <email>`;
  - message `subject\nbody`;
  - the date as given;
  - the checkout path `rootDir`.
- **Single-commit lookup** (`GitShow`, `GetCommitsForTag`, `GetCommitForHash`). This
  runs `git -C <rootDir> show <ref> --date=iso-strict <format> -s` and keeps the first
  decoded commit.

External collaborators are parameters of the operations:
- the process runner (`runCommand` over `exec.CommandContext`) is `run: Command -> ProcessOutput`;
- the JSON decoder (`json.Unmarshal`) is `parse: string -> Result<seq<CommitFormat>, GitError>`;
- the output template `GITFORMAT`, defined outside this model, is `gitFormat`.

Every property of the decoder is stated relative to `parse`. Go strings are byte
strings. Here a `string` stands for one, with one character per byte, so "the last
character" is the last byte, as in the source's `logOut[:len(logOut)-1]`. Go's `nil`
commit and `nil` error are `None`.

Modules follow the components:
- `GitTypes`: records, commits, command and runner shapes.
- `CommitModel`: the author and message display fields, with their inverses.
- `Decimal`: `strconv.Itoa` for the `-n` count, with a decimal reader as its inverse.
- `LogRange`: the argument lists.
- `LogDecoder`: the repair step and the decoding method.
- `GitCliManager`: the operations.

The model follows the code as written, including three points where a caller might expect something else:
- `GitShow` on an empty output, or on an output whose array is empty, returns no
  commit and no error. It does not return a not-found error.
- `GitShow` ignores the runner's error (line 141's `err` is overwritten at line 143).
  Only the standard output matters.
- The message is `subject + "\n" + body`, with one line break and no blank line.

## Model

| member | source | states |
|---|---|---|
| `LogRange.GetCommandForLogRange` | pkg/git/GitCliManager.go:127-135 | The result is the base arguments, then the range, then the extra arguments. When `from` or `to` is set the range is exactly one token: `from^..to` if both are set, `from^..branchRef` if only `from`, `to` if only `to`. When neither is set the incoming range arguments are kept unchanged. |
| `LogRange.LogCommandArgs` | pkg/git/GitCliManager.go:107-111 | GetCommits' argument list always has 8 entries: `-C rootDir log`, one range token per the precedence table (`branchRef` when neither bound is set), then `-n`, the decimal count, `--date=iso-strict` and the format. |
| `LogRange.BoundedRangeIgnoresBranch` | pkg/git/GitCliManager.go:128-129 | When both bounds are set, the branch reference and the incoming range arguments have no influence on the command. |
| `LogRange.CountArgumentRoundTrip` | pkg/git/GitCliManager.go:110 | The `-n` argument reads back as exactly `numCommits`, negative values included. |
| `Decimal.Itoa` | pkg/git/GitCliManager.go:110 | The count's text is non-empty. It starts with `-` exactly when the number is negative, and otherwise consists of decimal digits. |
| `Decimal.ItoaRoundTrip` | pkg/git/GitCliManager.go:110 | Reading the rendered count as a decimal integer gives back the number. |
| `LogDecoder.RepairLogOutput` | pkg/git/GitCliManager.go:155-157 | The parser's input is one character longer than the output. It opens with `[`, closes with `]`, and in between holds the output without its final character. |
| `LogDecoder.RepairDropsLastCharacter` | pkg/git/GitCliManager.go:156 | Exactly the final character is removed, whatever it is, not only a `,`. |
| `LogDecoder.RepairRenderedLog` | pkg/git/GitCliManager.go:155-157 | For git's output of a non-empty batch (each fragment followed by `,`), the repaired text is the JSON array of the fragments separated by `,`. |
| `LogDecoder.DecodingIsUnique` | pkg/git/GitCliManager.go:151-180 | The decoding outcome is determined by the output, the root directory and the parser. |
| `LogDecoder.DecodeRenderedLog` | pkg/git/GitCliManager.go:151-180 | If the parser reads the fragments' array as some records, decoding git's output for them succeeds. It gives one commit per record, in order, each with that record's hash and the checkout path `rootDir`. |
| `LogDecoder.ProcessGitLogOutput` | pkg/git/GitCliManager.go:151-180 | Empty output gives no commits and no error. Otherwise the parser gets exactly the repaired text. Its error is returned with no commits, so there is never a partial batch. Its records map one to one and in order to commits built by `ToCommit`. |
| `CommitModel.AuthorRoundTrip` | pkg/git/GitCliManager.go:170 | The author string `Name <email>` gives back both name and e-mail when the address contains no `<`. |
| `CommitModel.MessageRoundTrip` | pkg/git/GitCliManager.go:172 | The message `subject\nbody` gives back both subject and body when the subject is one line. |
| `CommitModel.ToCommitPreservesRecord` | pkg/git/GitCliManager.go:168-174 | A commit carries the record's hash and date and the checkout path `rootDir`. Its author and message give back the committer's name and e-mail and the subject and body. |
| `GitCliManager.ShowCommand` | pkg/git/GitCliManager.go:140 | The show query is `git -C rootDir show <ref> --date=iso-strict <format> -s`. |
| `GitCliManager.SelectionFollowsDecoding` | pkg/git/GitCliManager.go:143-148 | A decoding error or an empty batch gives no commit, with the decoding error unchanged (none for an empty batch). Otherwise the first decoded commit is selected with no error. |
| `GitCliManager.GitShow` | pkg/git/GitCliManager.go:138-149 | The result is the first commit decoded from the show query's standard output, or no commit with the decoding error (none for empty output). The runner's error is ignored. A returned commit comes with no error and has checkout path `rootDir`. |
| `GitCliManager.GetCommitsForTag` | pkg/git/GitCliManager.go:60-62 | A tag is looked up exactly as GitShow looks up a ref. |
| `GitCliManager.GetCommitForHash` | pkg/git/GitCliManager.go:64-67 | A hash is looked up exactly as GitShow looks up a ref. |
| `GitCliManager.GetCommits` | pkg/git/GitCliManager.go:107-125 | The command is `git` with the `LogCommandArgs` list. A runner error is returned with no commits. Otherwise the result is the decoding of the standard output. An error never comes with commits. |

## Left out

- Process spawning, context cancellation and stderr handling (`runCommand`, `exec.CommandContext`) are the `run` parameter. The runner's behaviour is not modelled.
- `json.Unmarshal` is the `parse` parameter. What it accepts, including how an unescaped quote in a subject breaks the array, is not modelled.
- `GITFORMAT` and the `GitCommitFormat`/`GitCommit` types are declared in files that are not part of this model. The template is the `gitFormat` parameter, and only the record fields the decoder reads are modelled.
- `Init`, `GitInit`, `GitCreateRemote`: directory creation and process calls with no decoding logic.
- `OpenRepoPlain` / `openGitRepo`: a filesystem probe (`filepath.Abs`, `Stat(".git")`) whose outcome depends on the operating system.
- `GetCommitIterator`: it wraps the batch in a `CommitCliIterator`, which is declared in a file that is not part of this model.
- `GetCommitStats`: it delegates to `FetchDiffStatBetweenCommits` and `getFileStat`, which are declared in files that are not part of this model.
- Logging calls have no behaviour to state.
- Go's distinction between a `nil` slice (error case) and an empty non-nil slice (empty output) is not modelled. Both are the empty sequence.
