/**
 * Decoding of git's custom log output. Every commit is printed as one JSON
 * object fragment followed by ',', so the text as a whole is not JSON. The
 * decoder drops the final character, wraps the rest in "[" and "]", parses
 * the array, and maps each record in order to a commit; an empty output is
 * an empty, successful batch and a parse failure yields no commits at all.
 */
module LogDecoder {
  import opened Wrappers
  import opened GitTypes
  import opened CommitModel

  /** The text handed to the JSON parser: the output without its final character, in brackets. */
  function RepairLogOutput(out: string): (text: string)
    requires out != ""
    ensures |text| == |out| + 1
    ensures text[0] == '[' && text[|text| - 1] == ']'
    ensures text[1..|text| - 1] == out[..|out| - 1]
  {
    "[" + out[..|out| - 1] + "]"
  }

  /** git's output for a batch: each fragment followed by ','. */
  function RenderLog(fragments: seq<string>): string
  {
    if fragments == [] then "" else fragments[0] + "," + RenderLog(fragments[1..])
  }

  /** The fragments separated by ',', as the elements of a JSON array are. */
  function JoinFragments(fragments: seq<string>): string
    requires fragments != []
  {
    if |fragments| == 1 then fragments[0]
    else fragments[0] + "," + JoinFragments(fragments[1..])
  }

  /** Whatever the final character is, exactly that one character is dropped. */
  lemma RepairDropsLastCharacter(s: string, c: char)
    ensures RepairLogOutput(s + [c]) == "[" + s + "]"
  {
    assert (s + [c])[..|s|] == s;
  }

  lemma {:induction false} RenderLogEndsWithSeparator(fragments: seq<string>)
    requires fragments != []
    ensures RenderLog(fragments) == JoinFragments(fragments) + ","
  {
    if |fragments| > 1 {
      RenderLogEndsWithSeparator(fragments[1..]);
    } else {
      assert fragments[1..] == [];
    }
  }

  /** The repair turns the output for a non-empty batch into the JSON array of its fragments. */
  lemma RepairRenderedLog(fragments: seq<string>)
    requires fragments != []
    ensures RenderLog(fragments) != ""
    ensures RepairLogOutput(RenderLog(fragments)) == "[" + JoinFragments(fragments) + "]"
  {
    RenderLogEndsWithSeparator(fragments);
    RepairDropsLastCharacter(JoinFragments(fragments), ',');
  }

  /**
   * The outcome processGitLogOutput promises for `out`: empty output is an empty
   * batch and no error; otherwise the parser gets exactly the repaired text, its
   * failure is returned with no commits, and its records are mapped one by one,
   * in order, to commits under rootDir.
   */
  predicate IsDecodingOf(out: string, rootDir: string, parse: JsonParser,
                         commits: seq<GitCommit>, err: Option<GitError>)
  {
    if out == "" then commits == [] && err == None
    else match parse(RepairLogOutput(out))
      case Failure(e) => commits == [] && err == Some(e)
      case Success(records) =>
        err == None && |commits| == |records| &&
        forall k :: 0 <= k < |records| ==> commits[k] == ToCommit(records[k], rootDir)
  }

  /** A batch and its error are determined by the output: the decoding is a function. */
  lemma DecodingIsUnique(out: string, rootDir: string, parse: JsonParser,
                         commits1: seq<GitCommit>, err1: Option<GitError>,
                         commits2: seq<GitCommit>, err2: Option<GitError>)
    requires IsDecodingOf(out, rootDir, parse, commits1, err1)
    requires IsDecodingOf(out, rootDir, parse, commits2, err2)
    ensures commits1 == commits2 && err1 == err2
  {
    if out != "" && parse(RepairLogOutput(out)).Success? {
      assert forall k :: 0 <= k < |commits1| ==> commits1[k] == commits2[k];
    }
  }

  /**
   * The output git prints for a non-empty batch of fragments decodes, when the
   * parser reads their array as `records`, to one commit per record in order.
   */
  lemma DecodeRenderedLog(fragments: seq<string>, records: seq<CommitFormat>, rootDir: string,
                          parse: JsonParser, commits: seq<GitCommit>, err: Option<GitError>)
    requires fragments != []
    requires parse("[" + JoinFragments(fragments) + "]") == Success(records)
    requires IsDecodingOf(RenderLog(fragments), rootDir, parse, commits, err)
    ensures err == None && |commits| == |records|
    ensures forall k :: 0 <= k < |records| ==>
      commits[k].commit == records[k].commit && commits[k].checkoutPath == rootDir
  {
    RepairRenderedLog(fragments);
  }

  /** processGitLogOutput, step by step: strip, wrap, parse, then map the records in a loop. */
  method ProcessGitLogOutput(out: string, rootDir: string, parse: JsonParser)
    returns (commits: seq<GitCommit>, err: Option<GitError>)
    ensures IsDecodingOf(out, rootDir, parse, commits, err)
    ensures err.Some? ==> commits == []
  {
    if |out| == 0 {
      return [], None;
    }
    var logOut := out;
    logOut := logOut[..|logOut| - 1];
    logOut := "[" + logOut + "]";

    var parsed := parse(logOut);
    if parsed.Failure? {
      return [], Some(parsed.error);
    }
    var records := parsed.value;

    var gitCommits: seq<GitCommit> := [];
    for i := 0 to |records|
      invariant |gitCommits| == i
      invariant forall k :: 0 <= k < i ==> gitCommits[k] == ToCommit(records[k], rootDir)
    {
      gitCommits := gitCommits + [ToCommit(records[i], rootDir)];
    }
    return gitCommits, None;
  }
}
