/**
 * How one decoded log record becomes a commit: the display author
 * "Name <email>" and the message "subject\nbody". The split functions are
 * the inverses that show neither field loses information under the
 * conditions git's format guarantees (a one-line subject, an address
 * without '<').
 */
module CommitModel {
  import opened Wrappers
  import opened GitTypes

  /** The author display string built from the committer's name and e-mail. */
  function AuthorDisplay(name: string, email: string): string
  {
    name + " <" + email + ">"
  }

  /** The message built from the subject line and the body. */
  function MessageText(subject: string, body: string): string
  {
    subject + "\n" + body
  }

  /** The commit built from one record; the checkout path is the repository's root directory. */
  function ToCommit(f: CommitFormat, rootDir: string): GitCommit
  {
    GitCommit(f.commit, AuthorDisplay(f.commiter.name, f.commiter.email), f.commiter.date,
              MessageText(f.subject, f.body), rootDir)
  }

  /** Position of the first `c` in `s`, or |s| when there is none. */
  function IndexOf(s: string, c: char): (i: nat)
    ensures i <= |s|
    ensures i < |s| ==> s[i] == c
    ensures forall j :: 0 <= j < i ==> s[j] != c
  {
    if |s| == 0 then 0
    else if s[0] == c then 0
    else 1 + IndexOf(s[1..], c)
  }

  /** Position of the last `c` in `s`, or -1 when there is none. */
  function LastIndexOf(s: string, c: char): (k: int)
    ensures -1 <= k < |s|
    ensures k >= 0 ==> s[k] == c
    ensures forall j :: k < j < |s| ==> s[j] != c
  {
    if |s| == 0 then -1
    else if s[|s| - 1] == c then |s| - 1
    else LastIndexOf(s[..|s| - 1], c)
  }

  /** Splits a message at its first line break into subject and body. */
  function SplitMessage(m: string): (string, string)
  {
    var i := IndexOf(m, '\n');
    if i < |m| then (m[..i], m[i + 1..]) else (m, "")
  }

  /** Recovers name and e-mail from "name <email>", using the last '<'. */
  function SplitAuthor(a: string): Option<(string, string)>
  {
    if |a| < 3 || a[|a| - 1] != '>' then None
    else
      var k := LastIndexOf(a[..|a| - 1], '<');
      if k < 1 || a[k - 1] != ' ' then None
      else Some((a[..k - 1], a[k + 1..|a| - 1]))
  }

  /** The message keeps subject and body apart: a one-line subject is recovered with the body. */
  lemma MessageRoundTrip(subject: string, body: string)
    requires forall j :: 0 <= j < |subject| ==> subject[j] != '\n'
    ensures SplitMessage(MessageText(subject, body)) == (subject, body)
  {
    var m := MessageText(subject, body);
    assert m[|subject|] == '\n';
    var i := IndexOf(m, '\n');
    assert i == |subject|;
    assert m[..i] == subject;
    assert m[i + 1..] == body;
  }

  /** The author string keeps name and e-mail apart when the address holds no '<'. */
  lemma AuthorRoundTrip(name: string, email: string)
    requires forall j :: 0 <= j < |email| ==> email[j] != '<'
    ensures SplitAuthor(AuthorDisplay(name, email)) == Some((name, email))
  {
    var a := AuthorDisplay(name, email);
    var p := a[..|a| - 1];
    var lt := |name| + 1;
    assert p[lt] == '<';
    var k := LastIndexOf(p, '<');
    assert k == lt;
    assert a[k - 1] == ' ';
    assert a[..k - 1] == name;
    assert a[k + 1..|a| - 1] == email;
  }

  /** Every field of the record reaches the commit, and the checkout path is the root directory. */
  lemma ToCommitPreservesRecord(f: CommitFormat, rootDir: string)
    requires forall j :: 0 <= j < |f.subject| ==> f.subject[j] != '\n'
    requires forall j :: 0 <= j < |f.commiter.email| ==> f.commiter.email[j] != '<'
    ensures var c := ToCommit(f, rootDir);
      c.commit == f.commit && c.date == f.commiter.date && c.checkoutPath == rootDir &&
      SplitAuthor(c.author) == Some((f.commiter.name, f.commiter.email)) &&
      SplitMessage(c.message) == (f.subject, f.body)
  {
    AuthorRoundTrip(f.commiter.name, f.commiter.email);
    MessageRoundTrip(f.subject, f.body);
  }
}
