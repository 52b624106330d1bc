/**
 * The per-repository watcher of pkg/watcher/repository/repository.go.
 *
 * A watcher starts uninitialised (`commit == ""`). Each tick either
 * initialises it (fresh temporary directory, clone, optional checkout,
 * commit read) or, once a commit is known, pulls and re-reads the latest
 * commit, notifying its listener when the hash changed. The git and
 * file-system collaborators are replaced by their outcomes, passed in as a
 * `Collaborators` value; the calls the watcher makes are recorded in the
 * ghost log `calls`, and the commits it hands to its listener in `notified`.
 */
module Repository {
  import opened Wrappers
  import Strings

  /** Field separator of the pretty format `%H|%an|%ae|%cn|%ce|%s`. */
  const Separator: char := '|'

  /** Number of `|`-separated fields the parser reads. */
  const FieldCount: nat := 6

  datatype CommitUser = CommitUser(name: string, email: string)

  datatype CommitDetails = CommitDetails(
    commit: string,
    message: string,
    author: CommitUser,
    committer: CommitUser)

  // ---------------------------------------------------------------------
  // The `git log` line and its parser
  // ---------------------------------------------------------------------

  /** The six fields of a commit, in the order of the pretty format. */
  function Fields(d: CommitDetails): (fields: seq<string>)
    ensures |fields| == FieldCount
  {
    [d.commit, d.author.name, d.author.email, d.committer.name, d.committer.email, d.message]
  }

  /**
   * The six fields of `d` joined with `|`, as the pretty format
   * `%H|%an|%ae|%cn|%ce|%s` lays them out, without the newline git puts
   * after them (see `GitLogOutput`).
   */
  function LogLine(d: CommitDetails): string
  {
    Strings.Join(Fields(d), Separator)
  }

  /**
   * What `git log --pretty=%H|%an|%ae|%cn|%ce|%s -n1` prints for `d`: git
   * reads a format with a placeholder and no prefix as `tformat:`, which
   * terminates every entry with a newline, so the output always ends in
   * one, after the subject.
   */
  function GitLogOutput(d: CommitDetails): string
  {
    Strings.Join(Fields(d)[..5] + [d.message + "\n"], Separator)
  }

  /**
   * The parsing half of `getCommitDetails`: split the output at every `|`
   * and read the parts positionally. With fewer than six parts, indexing
   * `parts[5]` is out of range, which is a run-time panic in the source;
   * that case is `None` here.
   */
  function ParseLogLine(output: string): Option<CommitDetails>
  {
    var parts := Strings.Split(output, Separator);
    if |parts| < FieldCount then None
    else Some(CommitDetails(parts[0], parts[5], CommitUser(parts[1], parts[2]), CommitUser(parts[3], parts[4])))
  }

  /** The parse succeeds exactly when the output holds at least five `|`. */
  lemma ParseDefinedIff(output: string)
    ensures ParseLogLine(output).Some? <==> Strings.Count(output, Separator) >= FieldCount - 1
  {
    Strings.SplitCount(output, Separator);
  }

  /** Six `|`-free fields, joined with `|`, parse back to the same commit. */
  lemma ParseLogLineRoundTrip(d: CommitDetails)
    requires Strings.SeparatorFree(Fields(d), Separator)
    ensures ParseLogLine(LogLine(d)) == Some(d)
  {
    Strings.SplitJoin(Fields(d), Separator);
  }

  /**
   * Output with exactly five `|` is the log line of the commit it parses
   * to: the parser loses nothing on such output.
   */
  lemma LogLineOfParse(output: string)
    requires Strings.Count(output, Separator) == FieldCount - 1
    ensures ParseLogLine(output).Some?
    ensures LogLine(ParseLogLine(output).value) == output
  {
    var parts := Strings.Split(output, Separator);
    Strings.SplitCount(output, Separator);
    Strings.JoinSplit(output, Separator);
    SixParts(parts);
  }

  /**
   * On what git actually prints, the parser keeps the terminating newline
   * in the message: every commit it reports has the subject followed by
   * "\n", and the other five fields are exact.
   */
  lemma ParseGitLogOutput(d: CommitDetails)
    requires Strings.SeparatorFree(Fields(d), Separator)
    ensures ParseLogLine(GitLogOutput(d)) == Some(d.(message := d.message + "\n"))
  {
    assert Separator !in d.message + "\n" by {
      assert Separator !in Fields(d)[5];
    }
    SubjectTruncated(d, d.message + "\n");
  }

  lemma SixParts<T>(s: seq<T>)
    requires |s| == 6
    ensures s == [s[0], s[1], s[2], s[3], s[4], s[5]]
  {
  }

  /**
   * A subject containing `|` is cut at its first `|`: the message keeps
   * only the first segment, the other five fields are unaffected.
   */
  lemma SubjectTruncated(d: CommitDetails, subject: string)
    requires Strings.SeparatorFree(Fields(d)[..5], Separator)
    ensures var r := ParseLogLine(Strings.Join(Fields(d)[..5] + [subject], Separator));
      && r.Some?
      && r.value.message == Strings.Split(subject, Separator)[0]
      && r.value.message == (if Separator in subject then subject[..Strings.IndexOf(subject, Separator)] else subject)
      && r.value.(message := d.message) == d
  {
    Strings.SplitJoinPrefix(Fields(d)[..5], subject, Separator);
  }

  // ---------------------------------------------------------------------
  // Collaborators and their outcomes
  // ---------------------------------------------------------------------

  /** A call the watcher makes to the file system or to git. */
  datatype GitCall =
    | MakeTempDir                         // ioutil.TempDir("", "watchrepo")
    | Clone(uri: string, dir: string)     // git.Clone
    | Checkout(dir: string, ref: string)  // git.Checkout
    | Pull(dir: string)                   // git pull, run in dir
    | Log(dir: string)                    // git log --pretty=... -n1, run in dir

  /**
   * What the collaborators answer during one tick. Only the answers to
   * calls that the tick actually makes are consulted.
   */
  datatype Collaborators = Collaborators(
    tempDir: Option<string>,    // the new directory, or None when it cannot be created
    cloneOk: bool,
    checkoutOk: bool,
    pullOk: bool,
    logOutput: Option<string>)  // what git log printed, or None when it failed

  /** Result of `getCommitDetails`. */
  datatype CommitRead =
    | ReadError                     // the git log command failed
    | Malformed                     // fewer than six fields: parts[5] panics
    | Details(details: CommitDetails)

  function ReadCommit(logOutput: Option<string>): CommitRead
  {
    match logOutput
    case None => ReadError
    case Some(output) =>
      match ParseLogLine(output)
      case None => Malformed
      case Some(d) => Details(d)
  }

  /**
   * A failed `git log` is a read error; output with fewer than five
   * separators is malformed; anything else parses.
   */
  lemma ReadCommitCases(logOutput: Option<string>)
    ensures var r := ReadCommit(logOutput);
      && (r.ReadError? <==> logOutput.None?)
      && (r.Malformed? <==> logOutput.Some? && Strings.Count(logOutput.value, Separator) < FieldCount - 1)
      && (r.Details? ==> ParseLogLine(logOutput.value) == Some(r.details))
  {
    if logOutput.Some? {
      ParseDefinedIff(logOutput.value);
    }
  }

  /** Why a tick ends in a run-time panic. */
  datatype Panic =
    | MissingField   // parts[5] out of range (repository.go:135-140)
    | NilDetails     // commitDetails.Commit on a nil result after a failed read (repository.go:113-116)
    | NilListener    // CommitAvailable on a nil listener (repository.go:118)

  datatype TickOutcome = Completed | Panicked(cause: Panic)

  /** The initialisation got as far as reading the commit. */
  predicate CheckedOut(gitRef: string, env: Collaborators)
  {
    env.tempDir.Some? && env.cloneOk && (gitRef == "" || env.checkoutOk)
  }

  /**
   * The calls `initializeRepo` makes: temp dir, clone into it, checkout
   * when a ref is configured, then the commit read, stopping at the first
   * failure.
   */
  function InitCalls(uri: string, gitRef: string, env: Collaborators): seq<GitCall>
  {
    match env.tempDir
    case None => [MakeTempDir]
    case Some(dir) =>
      var checkout := if gitRef != "" then [Checkout(dir, gitRef)] else [];
      var read := if CheckedOut(gitRef, env) then [Log(dir)] else [];
      [MakeTempDir, Clone(uri, dir)] + (if env.cloneOk then checkout + read else [])
  }

  /**
   * The initialiser always asks for a fresh directory first and works in
   * it afterwards; it checks out only when a ref is configured, and reads
   * the commit only once clone and checkout have succeeded.
   */
  lemma InitCallsShape(uri: string, gitRef: string, env: Collaborators)
    ensures var calls := InitCalls(uri, gitRef, env);
      && |calls| >= 1 && calls[0] == MakeTempDir
      && (|calls| > 1 <==> env.tempDir.Some?)
      && (env.tempDir.Some? ==> calls[1] == Clone(uri, env.tempDir.value))
      && (env.tempDir.Some? ==> forall k :: 1 <= k < |calls| ==> !calls[k].MakeTempDir? && calls[k].dir == env.tempDir.value)
      && (gitRef == "" ==> forall k :: 0 <= k < |calls| ==> !calls[k].Checkout?)
      && (env.tempDir.Some? ==> (Checkout(env.tempDir.value, gitRef) in calls <==> gitRef != "" && env.cloneOk))
      && (env.tempDir.Some? ==> (Log(env.tempDir.value) in calls <==> CheckedOut(gitRef, env)))
  {
  }

  /** Hash of the last commit handed to the listener, "" before the first. */
  function LastHash(notified: seq<CommitDetails>): string
  {
    if notified == [] then "" else notified[|notified| - 1].commit
  }

  /**
   * Consecutive notifications carry different hashes, except after a
   * notification of the empty hash, which leaves the watcher uninitialised.
   */
  ghost predicate NotifiesOnChange(notified: seq<CommitDetails>)
  {
    forall k :: 0 < k < |notified| ==> notified[k - 1].commit == "" || notified[k - 1].commit != notified[k].commit
  }

  /**
   * Reporting a commit keeps the log well formed when it differs from the
   * last reported one, or when nothing was reported yet; it becomes the
   * last hash.
   */
  lemma {:induction false} NotifyExtends(notified: seq<CommitDetails>, d: CommitDetails)
    requires NotifiesOnChange(notified)
    requires LastHash(notified) == "" || LastHash(notified) != d.commit
    ensures NotifiesOnChange(notified + [d])
    ensures LastHash(notified + [d]) == d.commit
  {
    var n := notified + [d];
    forall k | 0 < k < |n|
      ensures n[k - 1].commit == "" || n[k - 1].commit != n[k].commit
    {
      if k < |notified| {
        assert n[k - 1] == notified[k - 1] && n[k] == notified[k];
      }
    }
  }

  class RepositoryWatcher<L> {
    const uri: string
    const gitRef: string
    const listener: Option<L>
    var commit: string
    var repoDir: string
    var stop: bool
    ghost var calls: seq<GitCall>
    ghost var notified: seq<CommitDetails>

    /**
     * With a listener, the known commit is the last one reported to it, and
     * it was reported only because it differed from the one before.
     */
    ghost predicate Valid()
      reads this`commit, this`notified
    {
      && (listener.None? ==> notified == [])
      && (listener.Some? ==> commit == LastHash(notified))
      && NotifiesOnChange(notified)
    }

    /** `WatchRepository`, without the goroutine that ticks it. */
    constructor (uri: string, gitRef: string, listener: Option<L>)
      ensures Valid()
      ensures this.uri == uri && this.gitRef == gitRef && this.listener == listener
      ensures commit == "" && repoDir == "" && !stop
      ensures calls == [] && notified == []
    {
      this.uri := uri;
      this.gitRef := gitRef;
      this.listener := listener;
      commit := "";
      repoDir := "";
      stop := false;
      calls := [];
      notified := [];
    }

    /** What one call of `initializeRepo` does to the watcher. */
    twostate predicate InitializeRepoSpec(env: Collaborators, new outcome: TickOutcome, new notice: Option<CommitDetails>)
      reads this
    {
      && calls == old(calls) + InitCalls(uri, gitRef, env)
      && repoDir == (if env.tempDir.Some? then env.tempDir.value else old(repoDir))
      && stop == old(stop)
      && notified == old(notified) + ToSeq(notice)
      && if !CheckedOut(gitRef, env) then
           commit == old(commit) && notice == None && outcome == Completed
         else
           match ReadCommit(env.logOutput)
           case ReadError => commit == old(commit) && notice == None && outcome == Completed
           case Malformed => commit == old(commit) && notice == None && outcome == Panicked(MissingField)
           case Details(d) =>
             && commit == d.commit
             && notice == (if listener.Some? then Some(d) else None)
             && outcome == Completed
    }

    /** What one call of `checkRepoUpdate` does to the watcher. */
    twostate predicate CheckRepoUpdateSpec(env: Collaborators, new outcome: TickOutcome, new notice: Option<CommitDetails>)
      reads this
    {
      && calls == old(calls) + [Pull(old(repoDir))] + (if env.pullOk then [Log(old(repoDir))] else [])
      && repoDir == old(repoDir)
      && stop == old(stop)
      && notified == old(notified) + ToSeq(notice)
      && if !env.pullOk then
           commit == old(commit) && notice == None && outcome == Completed
         else
           match ReadCommit(env.logOutput)
           case ReadError => commit == old(commit) && notice == None && outcome == Panicked(NilDetails)
           case Malformed => commit == old(commit) && notice == None && outcome == Panicked(MissingField)
           case Details(d) =>
             if d.commit == old(commit) then
               commit == old(commit) && notice == None && outcome == Completed
             else
               && commit == d.commit
               && notice == (if listener.Some? then Some(d) else None)
               && outcome == (if listener.Some? then Completed else Panicked(NilListener))
    }

    /** One tick of work: initialise while no commit is known, else look for a new one. */
    method Watch(env: Collaborators) returns (outcome: TickOutcome, notice: Option<CommitDetails>)
      requires Valid()
      modifies this
      ensures Valid()
      ensures old(commit) == "" ==> InitializeRepoSpec(env, outcome, notice)
      ensures old(commit) != "" ==> CheckRepoUpdateSpec(env, outcome, notice)
    {
      if commit == "" {
        outcome, notice := InitializeRepo(env);
        return;
      }
      outcome, notice := CheckRepoUpdate(env);
    }

    method InitializeRepo(env: Collaborators) returns (outcome: TickOutcome, notice: Option<CommitDetails>)
      requires Valid() && commit == ""
      modifies this
      ensures Valid()
      ensures InitializeRepoSpec(env, outcome, notice)
    {
      outcome, notice := Completed, None;
      calls := calls + [MakeTempDir];
      if env.tempDir.None? {
        return;
      }
      var dir := env.tempDir.value;
      repoDir := dir;
      calls := calls + [Clone(uri, dir)];
      if !env.cloneOk {
        assert calls == old(calls) + InitCalls(uri, gitRef, env);
        return;
      }
      if gitRef != "" {
        calls := calls + [Checkout(dir, gitRef)];
        if !env.checkoutOk {
          assert calls == old(calls) + InitCalls(uri, gitRef, env);
          return;
        }
      }
      assert calls + [Log(dir)] == old(calls) + InitCalls(uri, gitRef, env);
      var read := GetCommitDetails(env);
      match read
      case ReadError =>
      case Malformed =>
        outcome := Panicked(MissingField);
      case Details(d) =>
        commit := d.commit;
        if listener.Some? {
          NotifyExtends(notified, d);
          notice := Some(d);
          notified := notified + [d];
        }
    }

    method CheckRepoUpdate(env: Collaborators) returns (outcome: TickOutcome, notice: Option<CommitDetails>)
      requires Valid() && commit != ""
      modifies this
      ensures Valid()
      ensures CheckRepoUpdateSpec(env, outcome, notice)
    {
      outcome, notice := Completed, None;
      calls := calls + [Pull(repoDir)];
      if !env.pullOk {
        return;
      }
      var read := GetCommitDetails(env);
      match read
      case ReadError =>
        outcome := Panicked(NilDetails);
      case Malformed =>
        outcome := Panicked(MissingField);
      case Details(d) =>
        if d.commit != commit {
          commit := d.commit;
          if listener.Some? {
            NotifyExtends(notified, d);
            notice := Some(d);
            notified := notified + [d];
          } else {
            outcome := Panicked(NilListener);
          }
        }
    }

    /** Runs `git log` in the working copy and parses its output. */
    method GetCommitDetails(env: Collaborators) returns (read: CommitRead)
      modifies this`calls
      ensures calls == old(calls) + [Log(repoDir)]
      ensures read == ReadCommit(env.logOutput)
    {
      calls := calls + [Log(repoDir)];
      read := ReadCommit(env.logOutput);
    }

    /** Only raises the flag; the ticking loop reads it after each tick. */
    method Stop()
      modifies this
      ensures stop
      ensures commit == old(commit) && repoDir == old(repoDir)
      ensures calls == old(calls) && notified == old(notified)
    {
      stop := true;
    }

    /**
     * One iteration of the loop started by `WatchRepository`: the tick's
     * work runs first and the stop flag is read afterwards, so a watcher
     * stopped between ticks still performs one more tick of git work.
     * `running` means something only when `outcome` is `Completed`: a
     * panicked tick ends the whole process, loop included.
     */
    method Tick(env: Collaborators) returns (running: bool, outcome: TickOutcome, notice: Option<CommitDetails>)
      requires Valid()
      modifies this
      ensures Valid()
      ensures old(commit) == "" ==> InitializeRepoSpec(env, outcome, notice)
      ensures old(commit) != "" ==> CheckRepoUpdateSpec(env, outcome, notice)
      ensures running == !old(stop)
    {
      outcome, notice := Watch(env);
      running := !stop;
    }
  }
}
