/** Issue lists: messages labelled `ERROR: `, `WARNING: ` or `INFO: `, and
    the prefix filters the scripts use to partition and count them. */
module Issues {
  import opened Text
  import opened Seqs

  function ErrorIssue(msg: string): string {
    "ERROR: " + msg
  }

  function WarningIssue(msg: string): string {
    "WARNING: " + msg
  }

  function InfoIssue(msg: string): string {
    "INFO: " + msg
  }

  /** Each label answers exactly one of the three prefix tests. */
  lemma Labels(msg: string)
    ensures StartsWith(ErrorIssue(msg), "ERROR")
    ensures !StartsWith(ErrorIssue(msg), "WARNING") && !StartsWith(ErrorIssue(msg), "INFO")
    ensures StartsWith(WarningIssue(msg), "WARNING")
    ensures !StartsWith(WarningIssue(msg), "ERROR") && !StartsWith(WarningIssue(msg), "INFO")
    ensures StartsWith(InfoIssue(msg), "INFO")
    ensures !StartsWith(InfoIssue(msg), "ERROR") && !StartsWith(InfoIssue(msg), "WARNING")
  {
    assert ErrorIssue(msg)[..5] == "ERROR";
    assert WarningIssue(msg)[..7] == "WARNING";
    assert InfoIssue(msg)[..4] == "INFO";
    assert ErrorIssue(msg)[0] == 'E' && WarningIssue(msg)[0] == 'W' && InfoIssue(msg)[0] == 'I';
  }

  /** `issue.startswith(prefix)`, as the test of a filter. */
  function PrefixTest(prefix: string): string -> bool {
    (issue: string) => StartsWith(issue, prefix)
  }

  /** `[issue for issue in issues if issue.startswith(prefix)]`. */
  function WithPrefix(issues: seq<string>, prefix: string): (r: seq<string>)
    ensures |r| <= |issues|
  {
    Filter(issues, PrefixTest(prefix))
  }

  /** The filter keeps every copy of an issue with the prefix and no other issue. */
  lemma WithPrefixMultiset(issues: seq<string>, prefix: string)
    ensures forall x {:trigger multiset(WithPrefix(issues, prefix))[x]} ::
              multiset(WithPrefix(issues, prefix))[x] ==
              if StartsWith(x, prefix) then multiset(issues)[x] else 0
  {
    FilterMultiset(issues, PrefixTest(prefix));
  }

  /** Filtering distributes over the concatenation of issue lists. */
  lemma WithPrefixAppend(a: seq<string>, b: seq<string>, prefix: string)
    ensures WithPrefix(a + b, prefix) == WithPrefix(a, prefix) + WithPrefix(b, prefix)
  {
    FilterAppend(a, b, PrefixTest(prefix));
  }

  function Errors(issues: seq<string>): seq<string> {
    WithPrefix(issues, "ERROR")
  }

  function Warnings(issues: seq<string>): seq<string> {
    WithPrefix(issues, "WARNING")
  }

  function Infos(issues: seq<string>): seq<string> {
    WithPrefix(issues, "INFO")
  }

  /** The message is one the scripts build with a label. */
  ghost predicate Labelled(issue: string) {
    exists m :: issue == ErrorIssue(m) || issue == WarningIssue(m) || issue == InfoIssue(m)
  }

  /** A labelled issue lands in exactly one of the three lists, so their
      lengths add up to the number of issues. */
  lemma {:induction false} Partition(issues: seq<string>)
    requires forall i :: 0 <= i < |issues| ==> Labelled(issues[i])
    ensures |Errors(issues)| + |Warnings(issues)| + |Infos(issues)| == |issues|
  {
    if issues != [] {
      var last := issues[|issues| - 1];
      var m :| last == ErrorIssue(m) || last == WarningIssue(m) || last == InfoIssue(m);
      Labels(m);
      Partition(issues[..|issues| - 1]);
    }
  }

  /** A list of warnings holds no error and no note. */
  lemma {:induction false} WarningsOnly(issues: seq<string>)
    requires forall i :: 0 <= i < |issues| ==> StartsWith(issues[i], "WARNING")
    ensures Errors(issues) == [] && Infos(issues) == []
  {
    if issues != [] {
      assert issues[|issues| - 1][0] == 'W';
      WarningsOnly(issues[..|issues| - 1]);
    }
  }

  /** A list of only warnings and infos holds no error. */
  lemma {:induction false} NoErrorsAmong(issues: seq<string>)
    requires forall i :: 0 <= i < |issues| ==> !StartsWith(issues[i], "ERROR")
    ensures Errors(issues) == []
  {
    if issues != [] {
      NoErrorsAmong(issues[..|issues| - 1]);
    }
  }

  /** A list of only errors is its own error list. */
  lemma {:induction false} AllErrors(issues: seq<string>)
    requires forall i :: 0 <= i < |issues| ==> StartsWith(issues[i], "ERROR")
    ensures Errors(issues) == issues
  {
    if issues != [] {
      AllErrors(issues[..|issues| - 1]);
      assert issues == issues[..|issues| - 1] + [issues[|issues| - 1]];
    }
  }

  /** The process exit status for `exit(n)` with a non-negative count `n`. */
  function ExitStatus(n: nat): (code: nat)
    ensures code < 256
    ensures n < 256 ==> code == n
  {
    n % 256
  }
}
