/** Runs of a download: one that nobody disturbs, and one whose cleanup removes another program's file. */
module DownloadCommitRuns {
  import opened Common
  import opened DownloadCommit

  predicate OwnRun(run: seq<Action>) { forall i | 0 <= i < |run| :: Own(run[i]) }

  lemma {:induction false} ValidAppend(s: State, run: seq<Action>, a: Action) returns (longer: seq<Action>)
    requires Valid(s, run) && Enabled(Exec(s, run), a)
    ensures longer == run + [a] && Valid(s, longer) && Exec(s, longer) == Next(Exec(s, run), a)
    decreases |run|
  {
    longer := run + [a];
    if run != [] {
      var rest := ValidAppend(Next(s, run[0]), run[1..], a);
      assert longer[1..] == rest;
    }
  }

  // ----- a download that nobody disturbs

  // What is captured for a target that is free or a regular file.
  function Expected(s: State): Access {
    match Lookup(s, s.target)
    case Some(File(i)) => Replace(i)
    case _ => CreateNew
  }

  lemma Prepares(s: State) returns (run: seq<Action>)
    requires Init(s) && Lookup(s, s.target) != Some(Other)
    ensures Valid(s, run) && Exec(s, run) == s.(access := Expected(s), phase := Checked)
    ensures OwnRun(run)
  {
    run := [];
    run := ValidAppend(s, run, Probe);
    run := ValidAppend(s, run, Identify);
    assert Exec(s, run) == s.(access := Expected(s), phase := Captured);
    run := ValidAppend(s, run, Compare);
  }

  ghost function WithStaged(s: State, name: Name, bytes: Bytes): State {
    s.(names := s.names[name := File(s.next)], data := s.data[s.next := bytes], next := s.next + 1, temp := name,
       tempInode := Some(s.next), source := s.next, mine := s.mine + {s.next}, staged := bytes, meddled := false,
       phase := SourceOpen)
  }

  lemma CreatesStaged(s: State, name: Name) returns (run: seq<Action>)
    requires s.phase.Checked? && s.staged == [] && s.target != name && name !in s.names
    ensures Valid(s, run) && Exec(s, run) == WithStaged(s, name, []).(source := s.source, phase := Staging)
    ensures OwnRun(run)
  {
    run := ValidAppend(s, [], ChooseTemp(name));
    assert Exec(s, run) == s.(temp := name, meddled := false, phase := Named);
    run := ValidAppend(s, run, CreateTemp);
  }

  lemma FillsStaged(s: State, bytes: Bytes)
    requires s.phase.Staging? && s.staged == [] && s.tempInode.Some? && s.tempInode.value in s.data
    requires s.data[s.tempInode.value] == []
    ensures Enabled(s, Stage(bytes))
    ensures Next(s, Stage(bytes)) == s.(data := s.data[s.tempInode.value := bytes], staged := bytes)
  {
    assert WriteAt([], 0, bytes) == bytes && [] + bytes == bytes;
  }

  lemma OpensStaged(s: State, i: Inode) returns (run: seq<Action>)
    requires s.phase.Staging? && Lookup(s, s.temp) == Some(File(i)) && Lookup(s, s.target) != Some(Other) && i in s.data
    ensures Valid(s, run) && Exec(s, run) == s.(source := i, phase := SourceOpen)
    ensures OwnRun(run)
  {
    run := ValidAppend(s, [], BeginCommit);
    assert Exec(s, run) == s.(phase := Opening);
    run := ValidAppend(s, run, OpenSource(i));
  }

  lemma Stages(s: State, name: Name, bytes: Bytes) returns (run: seq<Action>)
    requires s.phase.Checked? && s.staged == [] && s.target != name && name !in s.names
    requires Lookup(s, s.target) != Some(Other)
    ensures Valid(s, run) && Exec(s, run) == WithStaged(s, name, bytes)
    ensures OwnRun(run)
  {
    run := CreatesStaged(s, name);
    var s1 := WithStaged(s, name, []).(source := s.source, phase := Staging);
    FillsStaged(s1, bytes);
    run := ValidAppend(s, run, Stage(bytes));
    var s2 := WithStaged(s, name, bytes).(source := s.source, phase := Staging);
    assert Exec(s, run) == s2 by { assert s1.data[s.next := bytes] == s2.data; }
    var more := OpensStaged(s2, s.next);
    ValidConcat(s, run, more);
    run := run + more;
  }

  // The destination opened for good and still empty.
  predicate Opened(s: State, t: State, d: Inode) {
    && t == s.(names := t.names, data := t.data, next := t.next, mine := t.mine, dest := Some(d), pos := 0,
               writing := true, phase := Copying)
    && t.names == s.names[s.target := File(d)] && t.data == s.data[d := []]
  }

  lemma Opens(s: State) returns (run: seq<Action>, d: Inode)
    requires s.phase.SourceOpen? && TargetAsExpected(s) && !s.access.Undecided?
    requires s.access.Replace? ==> s.access.inode in s.data
    ensures Valid(s, run) && Opened(s, Exec(s, run), d)
    ensures d == if s.access.Replace? then s.access.inode else s.next
    ensures OwnRun(run)
  {
    if s.access.Replace? {
      d := s.access.inode;
      run := ValidAppend(s, [], OpenTarget);
      run := ValidAppend(s, run, Verify);
      assert Exec(s, run) == s.(dest := Some(d), phase := Verified);
      run := ValidAppend(s, run, Truncate);
      assert s.names[s.target := File(d)] == s.names;
    } else {
      d := s.next;
      run := ValidAppend(s, [], CreateTarget);
    }
  }

  lemma Copies(s: State, d: Inode, bytes: Bytes) returns (run: seq<Action>)
    requires s.phase.Copying? && s.dest == Some(d) && s.pos == 0 && d in s.data && s.data[d] == []
    requires s.source in s.data && s.source != d && s.data[s.source] == bytes
    ensures Valid(s, run)
    ensures Exec(s, run)
            == s.(data := s.data[d := bytes], pos := |bytes|, names := s.names - {s.temp}, phase := Done(true))
    ensures OwnRun(run)
  {
    run := [];
    if bytes != [] {
      assert WriteAt([], 0, bytes[0..|bytes|]) == bytes;
      run := ValidAppend(s, run, CopyChunk(|bytes|));
    }
    assert Exec(s, run) == s.(data := s.data[d := bytes], pos := |bytes|);
    run := ValidAppend(s, run, Finish);
    run := ValidAppend(s, run, DropTemp(true));
  }

  lemma Commits(s: State, bytes: Bytes) returns (run: seq<Action>, d: Inode)
    requires s.phase.SourceOpen? && TargetAsExpected(s) && !s.access.Undecided?
    requires s.access.Replace? ==> s.access.inode in s.data && s.access.inode != s.source
    requires s.source in s.data && s.source != s.next && s.data[s.source] == bytes
    ensures Valid(s, run) && OwnRun(run)
    ensures d == if s.access.Replace? then s.access.inode else s.next
    ensures var t := Exec(s, run);
            && t.phase == Done(true) && t.dest == Some(d) && t.data == s.data[d := bytes]
            && t.names == s.names[s.target := File(d)] - {s.temp}
  {
    run, d := Opens(s);
    var t := Exec(s, run);
    var more := Copies(t, d, bytes);
    ValidConcat(s, run, more);
    run := run + more;
    assert s.data[d := []][d := bytes] == s.data[d := bytes];
  }

  lemma StagesAndCommits(s: State, name: Name, bytes: Bytes) returns (run: seq<Action>, d: Inode)
    requires s.phase.Checked? && s.staged == [] && s.target != name && name !in s.names
    requires s.access == Expected(s) && Lookup(s, s.target) != Some(Other) && s.next !in s.data
    requires s.access.Replace? ==> s.access.inode in s.data
    ensures Valid(s, run) && OwnRun(run)
    ensures d == if s.access.Replace? then s.access.inode else s.next + 1
    ensures var t := Exec(s, run);
            && t.phase == Done(true) && t.dest == Some(d) && t.data == s.data[s.next := bytes][d := bytes]
            && t.names == s.names[s.target := File(d)]
  {
    run := Stages(s, name, bytes);
    var more;
    more, d := Commits(WithStaged(s, name, bytes), bytes);
    ValidConcat(s, run, more);
    run := run + more;
    StagedNameGoes(s.names, s.target, name, d, s.next);
  }

  // From any directory, with a free temporary name: the download's own steps end in success, the
  // target leads to a file with exactly these bytes (the one it led to before, if any), the
  // temporary is gone, and nothing else has changed.
  lemma UndisturbedDownloadSucceeds(s: State, name: Name, bytes: Bytes) returns (run: seq<Action>)
    requires Init(s) && Lookup(s, s.target) != Some(Other) && name !in s.names && name != s.target
    ensures Valid(s, run) && OwnRun(run)
    ensures var t := Exec(s, run);
            && t.phase == Done(true) && t.dest.Some? && t.dest.value in t.data && t.data[t.dest.value] == bytes
            && t.names == s.names[s.target := File(t.dest.value)]
            && (s.target in s.names ==> s.names[s.target] == File(t.dest.value))
            && (forall i | i in s.data && i != t.dest.value :: i in t.data && t.data[i] == s.data[i])
  {
    run := Prepares(s);
    var more, d := StagesAndCommits(s.(access := Expected(s), phase := Checked), name, bytes);
    ValidConcat(s, run, more);
    run := run + more;
  }

  // ----- a commit that fails

  // A new target that could not be filled is removed again, and so is the temporary, as long as the
  // names still lead where the download left them.
  lemma FailedCreateLeavesNothing(s: State) returns (run: seq<Action>)
    requires s.phase.Copying? && s.access.CreateNew? && s.dest.Some?
    requires Lookup(s, s.target) == Some(File(s.dest.value))
    ensures Valid(s, run) && OwnRun(run)
    ensures Exec(s, run) == s.(names := s.names - {s.target} - {s.temp}, phase := Done(false))
  {
    run := AbortsAndGuards(s);
    run := ValidAppend(s, run, DropTemp(true));
  }

  // The new target's guard removes the name exactly when it leads to the file it created.
  lemma AbortsAndGuards(s: State) returns (run: seq<Action>)
    requires s.phase.Copying? && s.access.CreateNew? && s.dest.Some?
    ensures Valid(s, run) && OwnRun(run)
    ensures Exec(s, run) == s.(phase := Finishing(false),
                               names := if Lookup(s, s.target) == Some(File(s.dest.value)) then s.names - {s.target}
                                        else s.names)
  {
    run := ValidAppend(s, [], Abort);
    assert Exec(s, run) == s.(phase := Guarding);
    run := ValidAppend(s, run, Guard(true));
  }

  // A name that leads elsewhere by then is left to its new owner.
  lemma FailedCreateSparesOthers(s: State) returns (run: seq<Action>)
    requires s.phase.Copying? && s.access.CreateNew? && s.dest.Some?
    requires Lookup(s, s.target) != Some(File(s.dest.value))
    ensures Valid(s, run) && OwnRun(run)
    ensures Exec(s, run) == s.(names := s.names - {s.temp}, phase := Done(false))
  {
    run := AbortsAndGuards(s);
    run := ValidAppend(s, run, DropTemp(true));
  }

  // Giving up between the creation of the temporary and the first write to the target removes only
  // the temporary.
  lemma AbandonedDownloadLeavesNothing(s: State) returns (run: seq<Action>)
    requires s.phase.Staging? || s.phase.Opening? || s.phase.SourceOpen? || s.phase.TargetOpen? || s.phase.Verified?
    ensures Valid(s, run) && OwnRun(run)
    ensures Exec(s, run) == s.(names := s.names - {s.temp}, phase := Done(false))
  {
    run := ValidAppend(s, [], Abort);
    run := ValidAppend(s, run, DropTemp(true));
  }

  lemma StagedNameGoes(names: map<Name, Entry>, target: Name, name: Name, d: Inode, i: Inode)
    requires name !in names && name != target
    ensures names[name := File(i)][target := File(d)] - {name} == names[target := File(d)]
  {
  }

  lemma {:induction false} ValidConcat(s: State, a: seq<Action>, b: seq<Action>)
    requires Valid(s, a) && Valid(Exec(s, a), b)
    ensures Valid(s, a + b) && Exec(s, a + b) == Exec(Exec(s, a), b)
    decreases |a|
  {
    if a == [] {
      assert a + b == b;
    } else {
      assert (a + b)[1..] == a[1..] + b;
      ValidConcat(Next(s, a[0]), a[1..], b);
    }
  }

  // Contrary to its description, the guard exists before the file: when another program takes
  // the name in between, creation fails and the guard removes the other program's file.
  lemma DropMayRemoveForeign(s: State, name: Name) returns (run: seq<Action>)
    requires Init(s) && s.target !in s.names && name !in s.names && name != s.target
    ensures Valid(s, run)
    ensures var t := Exec(s, run);
            && t.phase == Finishing(false) && t.temp == name && t.mine == {}
            && Lookup(t, name) == Some(File(s.next)) && name !in Next(t, DropTemp(true)).names
  {
    run := Prepares(s);
    run := ValidAppend(s, run, ChooseTemp(name));
    run := ValidAppend(s, run, EnvCreate(name, []));
    run := ValidAppend(s, run, CreateTemp);
  }
}
