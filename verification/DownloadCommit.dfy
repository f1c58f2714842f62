/** Staging a download and committing it to its target while other programs use the same directory.
    A name leads to an inode; an inode keeps its content for as long as someone holds it. */
module DownloadCommit {
  import opened Common

  type Inode = nat
  type Name = string
  type Bytes = seq<int>

  datatype Entry = File(inode: Inode) | Other   // `Other`: a link, or not a regular file

  // The authorization captured when the destination is chosen.
  datatype Access = Undecided | CreateNew | Replace(inode: Inode)

  datatype Phase =
    | Start                    // nothing known about the target yet
    | Probed(exists_: bool)    // capture: saw whether there is a regular file
    | Captured                 // access decided
    | Checked                  // preparation: the target still is what was captured
    | Named                    // the temporary path is chosen and its guard exists
    | Staging                  // the temporary file is open for writing
    | Opening                  // commit: the paths were checked
    | SourceOpen               // the staged file is open for reading
    | TargetOpen               // replace: the target is open, not yet compared
    | Verified                 // replace: the open file is the captured one
    | Copying
    | Guarding                 // create: failed, the new target's guard is about to run
    | Finishing(ok: bool)      // the temporary's guard is about to run
    | Done(ok: bool)

  datatype State = State(
    names: map<Name, Entry>,
    data: map<Inode, Bytes>,
    next: Inode,                    // identities are never reused
    target: Name,
    temp: Name,
    access: Access,
    tempInode: Option<Inode>,       // the staged file, once created
    source: Inode,                  // the handle being read
    dest: Option<Inode>,            // the handle being written
    pos: nat,
    phase: Phase,
    // bookkeeping
    writing: bool,                  // `dest` has been opened for good: truncated, or created
    mine: set<Inode>,               // inodes this download created exclusively
    staged: Bytes,                  // what was written to the staged file
    meddled: bool)                  // another writer touched the staged file, its name or the destination

  datatype Action =
    // the download
    | Probe | Identify | Compare | ChooseTemp(name: Name) | CreateTemp | Stage(bytes: Bytes)
    | BeginCommit | OpenSource(other: Inode) | OpenTarget | Verify | Truncate | CreateTarget
    | CopyChunk(size: nat) | Finish | Abort | Guard(removed: bool) | DropTemp(removed: bool)
    // everyone else
    | EnvCreate(name: Name, bytes: Bytes) | EnvPlaceOther(name: Name) | EnvHardLink(name: Name, inode: Inode)
    | EnvUnlink(name: Name) | EnvRename(from: Name, to: Name) | EnvWrite(inode: Inode, bytes: Bytes)

  predicate Own(a: Action) {
    !(a.EnvCreate? || a.EnvPlaceOther? || a.EnvHardLink? || a.EnvUnlink? || a.EnvRename? || a.EnvWrite?)
  }

  function Lookup(s: State, n: Name): Option<Entry> { if n in s.names then Some(s.names[n]) else None }

  function Fail(s: State): State { s.(phase := Finishing(false)) }

  function GiveUp(s: State): State { s.(phase := Done(false)) }

  // A write at a file position; a gap reads as zeros.
  function WriteAt(content: Bytes, at: nat, chunk: Bytes): Bytes {
    (if at <= |content| then content[..at] else content + seq(at - |content|, _ => 0))
    + chunk
    + (if at + |chunk| <= |content| then content[at + |chunk|..] else [])
  }

  predicate Enabled(s: State, a: Action) {
    match a
    case Probe => s.phase.Start?
    case Identify => s.phase.Probed?
    case Compare => s.phase.Captured?
    case ChooseTemp(name) => s.phase.Checked? && name != s.target
    case CreateTemp => s.phase.Named?
    case Stage(_) => s.phase.Staging? && s.tempInode.Some? && s.tempInode.value in s.data
    case BeginCommit => s.phase.Staging?
    case OpenSource(other) => s.phase.Opening? && other in s.data
    case OpenTarget => s.phase.SourceOpen? && s.access.Replace?
    case Verify => s.phase.TargetOpen?
    case Truncate => s.phase.Verified? && s.dest.Some? && s.dest.value in s.data
    case CreateTarget => s.phase.SourceOpen? && s.access.CreateNew?
    case CopyChunk(n) =>
      && s.phase.Copying? && s.dest.Some? && s.dest.value in s.data && s.source in s.data
      && 0 < n && s.pos + n <= |s.data[s.source]|
    case Finish => s.phase.Copying? && s.source in s.data && |s.data[s.source]| <= s.pos
    case Abort => !s.phase.Guarding? && !s.phase.Finishing? && !s.phase.Done?
    case Guard(_) => s.phase.Guarding?
    case DropTemp(_) => s.phase.Finishing?
    case EnvCreate(name, _) => name !in s.names
    case EnvPlaceOther(name) => name !in s.names
    case EnvHardLink(name, inode) => name !in s.names && inode in s.data
    case EnvUnlink(name) => name in s.names
    case EnvRename(from, to) => from in s.names && from != to
    case EnvWrite(inode, _) => inode in s.data
  }

  // `DownloadTargetAccess::capture`
  function CaptureStep(s: State, a: Action): State {
    match a
    case Probe =>
      (match Lookup(s, s.target)
       case None => s.(phase := Probed(false))
       case Some(File(_)) => s.(phase := Probed(true))
       case Some(Other) => GiveUp(s))
    case Identify =>
      if s.phase == Probed(false) then s.(access := CreateNew, phase := Captured)
      else (match Lookup(s, s.target)
            case Some(File(i)) => s.(access := Replace(i), phase := Captured)
            case _ => GiveUp(s))
    case _ => s
  }

  predicate TargetAsExpected(s: State) {
    match s.access
    case Replace(i) => Lookup(s, s.target) == Some(File(i))
    case _ => s.target !in s.names
  }

  // `create_with_access`, and writes to the staged file
  function PrepareStep(s: State, a: Action): State
    requires Enabled(s, a)
  {
    match a
    case Compare => if TargetAsExpected(s) then s.(phase := Checked) else GiveUp(s)
    case ChooseTemp(name) =>
      if Lookup(s, name) == Some(Other) then GiveUp(s) else s.(temp := name, meddled := false, phase := Named)
    case CreateTemp =>
      if s.temp in s.names then Fail(s)
      else s.(names := s.names[s.temp := File(s.next)], data := s.data[s.next := []], next := s.next + 1,
              tempInode := Some(s.next), mine := s.mine + {s.next}, phase := Staging)
    case Stage(bytes) =>
      var t := s.tempInode.value;
      s.(data := s.data[t := WriteAt(s.data[t], |s.staged|, bytes)], staged := s.staged + bytes)
    case _ => s
  }

  // `commit`
  function CommitStep(s: State, a: Action): State
    requires Enabled(s, a)
  {
    match a
    case BeginCommit =>
      if Lookup(s, s.target) == Some(Other) || Lookup(s, s.temp) == Some(Other) then Fail(s)
      else s.(phase := Opening)
    case OpenSource(other) =>
      (match Lookup(s, s.temp)
       case None => Fail(s)
       case Some(File(i)) => s.(source := i, phase := SourceOpen)
       case Some(Other) => s.(source := other, phase := SourceOpen))
    case OpenTarget =>
      (match Lookup(s, s.target)
       case Some(File(j)) => s.(dest := Some(j), phase := TargetOpen)
       case _ => Fail(s))
    case Verify => if s.access == Replace(FromSome(s.dest)) then s.(phase := Verified) else Fail(s)
    case Truncate =>
      s.(data := s.data[s.dest.value := []], pos := 0, writing := true, phase := Copying)
    case CreateTarget =>
      if s.target in s.names then Fail(s)
      else s.(names := s.names[s.target := File(s.next)], data := s.data[s.next := []], next := s.next + 1,
              dest := Some(s.next), mine := s.mine + {s.next}, pos := 0, writing := true, phase := Copying)
    case CopyChunk(n) =>
      var d := s.dest.value;
      s.(data := s.data[d := WriteAt(s.data[d], s.pos, s.data[s.source][s.pos..s.pos + n])], pos := s.pos + n)
    case Finish => s.(phase := Finishing(true))
    case _ => s
  }

  function FromSome(o: Option<Inode>): Inode { if o.Some? then o.value else 0 }

  // Errors, and the guards that clean up
  function CleanupStep(s: State, a: Action): State {
    match a
    case Abort =>
      if s.phase.Copying? && s.access.CreateNew? then s.(phase := Guarding)
      else if s.phase.Start? || s.phase.Probed? || s.phase.Captured? || s.phase.Checked? then GiveUp(s)
      else Fail(s)
    case Guard(removed) =>
      if removed && s.dest.Some? && Lookup(s, s.target) == Some(File(s.dest.value))
      then Fail(s.(names := s.names - {s.target})) else Fail(s)
    case DropTemp(removed) =>
      var ok := s.phase.Finishing? && s.phase.ok;
      if removed then s.(names := s.names - {s.temp}, phase := Done(ok)) else s.(phase := Done(ok))
    case _ => s
  }

  // Files whose content this download relies on.
  predicate InUse(s: State, inode: Inode) { s.tempInode == Some(inode) || (s.writing && s.dest == Some(inode)) }

  function EnvStep(s: State, a: Action): State
    requires Enabled(s, a)
  {
    match a
    case EnvCreate(name, bytes) =>
      s.(names := s.names[name := File(s.next)], data := s.data[s.next := bytes], next := s.next + 1,
         meddled := s.meddled || name == s.temp)
    case EnvPlaceOther(name) => s.(names := s.names[name := Other], meddled := s.meddled || name == s.temp)
    case EnvHardLink(name, inode) => s.(names := s.names[name := File(inode)], meddled := s.meddled || name == s.temp)
    case EnvUnlink(name) => s.(names := s.names - {name}, meddled := s.meddled || name == s.temp)
    case EnvRename(from, to) =>
      s.(names := (s.names - {from})[to := s.names[from]], meddled := s.meddled || from == s.temp || to == s.temp)
    case EnvWrite(inode, bytes) =>
      s.(data := s.data[inode := bytes], meddled := s.meddled || InUse(s, inode))
    case _ => s
  }

  function Next(s: State, a: Action): State
    requires Enabled(s, a)
  {
    match a
    case Probe | Identify => CaptureStep(s, a)
    case Compare | ChooseTemp(_) | CreateTemp | Stage(_) => PrepareStep(s, a)
    case BeginCommit | OpenSource(_) | OpenTarget | Verify | Truncate | CreateTarget | CopyChunk(_) | Finish =>
      CommitStep(s, a)
    case Abort | Guard(_) | DropTemp(_) => CleanupStep(s, a)
    case _ => EnvStep(s, a)
  }

  predicate Valid(s: State, run: seq<Action>)
    decreases |run|
  {
    run == [] || (Enabled(s, run[0]) && Valid(Next(s, run[0]), run[1..]))
  }

  function Exec(s: State, run: seq<Action>): State
    requires Valid(s, run)
    decreases |run|
  {
    if run == [] then s else Exec(Next(s, run[0]), run[1..])
  }

  predicate Init(s: State) {
    && (forall n | n in s.names && s.names[n].File? :: s.names[n].inode in s.data)
    && (forall i | i in s.data :: i < s.next)
    && s.phase == Start && s.access == Undecided && s.tempInode == None && s.dest == None
    && !s.writing && s.mine == {} && s.staged == []
  }

  // ----- invariants

  predicate StoreInv(s: State) {
    && (forall n | n in s.names && s.names[n].File? :: s.names[n].inode in s.data)
    && (forall i | i in s.data :: i < s.next)
    && (forall i | i in s.mine :: i in s.data)
  }

  predicate Early(p: Phase) { p.Start? || p.Probed? || p.Captured? || p.Checked? || p.Named? }

  predicate Reading(p: Phase) { p.SourceOpen? || p.TargetOpen? || p.Verified? || p.Copying? }

  predicate Succeeded(p: Phase) { (p.Finishing? || p.Done?) && p.ok }

  // What each phase knows about its own files.
  predicate Roles(s: State) {
    && (s.phase.Start? || s.phase.Probed? ==> s.access.Undecided?)
    && (s.phase.Captured? || s.phase.Checked? || s.phase.Named? || s.phase.Staging? ==> !s.access.Undecided?)
    && (s.phase.Opening? || Reading(s.phase) ==> !s.access.Undecided?)
    && (Early(s.phase) ==> s.tempInode.None? && s.staged == [])
    && (if s.tempInode.Some? then s.tempInode.value in s.mine else s.mine == {})
    && (s.phase.Staging? || s.phase.Opening? || Reading(s.phase) || Succeeded(s.phase) ==> s.tempInode.Some?)
    && (s.access.Replace? ==> s.access.inode in s.data && s.access.inode !in s.mine)
    && (s.phase.TargetOpen? || s.phase.Verified? ==> s.access.Replace? && s.dest.Some?)
    && (s.phase.Verified? ==> s.dest.value == s.access.inode)
    && (Reading(s.phase) ==> s.source in s.data)
    && (s.phase.Guarding? ==> s.access.CreateNew?)
  }

  // The file being written is the captured one, or one that was created for this download.
  predicate Destination(s: State) {
    && (s.writing ==> s.phase.Copying? || s.phase.Guarding? || s.phase.Finishing? || s.phase.Done?)
    && (s.phase.Copying? || s.phase.Guarding? || Succeeded(s.phase) ==> s.writing)
    && (s.writing ==>
          && s.dest.Some? && !s.access.Undecided?
          && (s.access.Replace? ==> s.dest.value == s.access.inode)
          && (s.access.CreateNew? ==> s.dest.value in s.mine && s.dest != s.tempInode))
  }

  predicate Inv(s: State) { StoreInv(s) && Roles(s) && Destination(s) }

  lemma InitInv(s: State)
    requires Init(s)
    ensures Inv(s)
  {
  }

  lemma ProbeKeeps(s: State)
    requires Inv(s) && Enabled(s, Probe)
    ensures Inv(Next(s, Probe))
  {
  }

  lemma IdentifyKeeps(s: State)
    requires Inv(s) && Enabled(s, Identify)
    ensures Inv(Next(s, Identify))
  {
  }

  lemma PrepareKeeps(s: State, a: Action)
    requires Inv(s) && Enabled(s, a) && (a.Compare? || a.ChooseTemp? || a.CreateTemp? || a.Stage?)
    ensures Inv(Next(s, a))
  {
  }

  lemma BeginKeeps(s: State, a: Action)
    requires Inv(s) && Enabled(s, a) && a.BeginCommit?
    ensures Inv(Next(s, a))
  {
  }

  lemma SourceKeeps(s: State, a: Action)
    requires Inv(s) && Enabled(s, a) && a.OpenSource?
    ensures Inv(Next(s, a))
  {
  }

  lemma OpenKeeps(s: State, a: Action)
    requires Inv(s) && Enabled(s, a) && (a.OpenTarget? || a.Verify?)
    ensures Inv(Next(s, a))
  {
  }

  lemma WriteKeeps(s: State, a: Action)
    requires Inv(s) && Enabled(s, a) && (a.Truncate? || a.CreateTarget? || a.CopyChunk? || a.Finish?)
    ensures Inv(Next(s, a))
  {
  }

  lemma AbortKeeps(s: State)
    requires Inv(s) && Enabled(s, Abort)
    ensures Inv(Next(s, Abort))
  {
  }

  // Ending only forgets names.
  lemma EndKeeps(s: State, t: State)
    requires Inv(s) && t == s.(names := t.names, phase := t.phase)
    requires forall n | n in t.names :: n in s.names && t.names[n] == s.names[n]
    requires (t.phase.Finishing? || t.phase.Done?) && (t.phase.ok ==> Succeeded(s.phase))
    ensures Inv(t)
  {
  }

  lemma GuardKeeps(s: State, a: Action)
    requires Inv(s) && Enabled(s, a) && a.Guard?
    ensures Inv(Next(s, a))
  {
    EndKeeps(s, CleanupStep(s, a));
  }

  lemma DropKeeps(s: State, a: Action)
    requires Inv(s) && Enabled(s, a) && a.DropTemp?
    ensures Inv(Next(s, a))
  {
    EndKeeps(s, CleanupStep(s, a));
  }

  // Other programs change the store only.
  lemma EnvShape(s: State, a: Action)
    requires Enabled(s, a) && !Own(a)
    ensures var t := Next(s, a);
            && t == s.(names := t.names, data := t.data, next := t.next, meddled := t.meddled)
            && forall i | i in s.data :: i in t.data
  {
  }

  lemma EnvStore(s: State, a: Action)
    requires StoreInv(s) && Enabled(s, a) && !Own(a)
    ensures StoreInv(Next(s, a))
  {
  }

  lemma EnvFrame(s: State, t: State)
    requires Roles(s) && Destination(s)
    requires t == s.(names := t.names, data := t.data, next := t.next, meddled := t.meddled)
    requires forall i | i in s.data :: i in t.data
    ensures Roles(t) && Destination(t)
  {
  }

  lemma EnvKeeps(s: State, a: Action)
    requires Inv(s) && Enabled(s, a) && !Own(a)
    ensures Inv(Next(s, a))
  {
    EnvShape(s, a);
    EnvStore(s, a);
    EnvFrame(s, Next(s, a));
  }

  lemma StepKeeps(s: State, a: Action)
    requires Inv(s) && Enabled(s, a)
    ensures Inv(Next(s, a))
  {
    match a
    case Probe => ProbeKeeps(s);
    case Identify => IdentifyKeeps(s);
    case Compare | ChooseTemp(_) | CreateTemp | Stage(_) => PrepareKeeps(s, a);
    case BeginCommit => BeginKeeps(s, a);
    case OpenSource(_) => SourceKeeps(s, a);
    case OpenTarget | Verify => OpenKeeps(s, a);
    case Truncate | CreateTarget | CopyChunk(_) | Finish => WriteKeeps(s, a);
    case Abort => AbortKeeps(s);
    case Guard(_) => GuardKeeps(s, a);
    case DropTemp(_) => DropKeeps(s, a);
    case _ => EnvKeeps(s, a);
  }

  lemma {:induction false} ReachableInv(s: State, run: seq<Action>)
    requires Inv(s) && Valid(s, run)
    ensures Inv(Exec(s, run))
    decreases |run|
  {
    if run != [] {
      StepKeeps(s, run[0]);
      ReachableInv(Next(s, run[0]), run[1..]);
    }
  }

  // ----- whose files are written

  function Opt(o: Option<Inode>): set<Inode> { if o.Some? then {o.value} else {} }

  // The files this download writes: the staged one, and its destination once it is settled.
  function Written(s: State): set<Inode> {
    Opt(s.tempInode) + (if s.writing then Opt(s.dest) else {})
  }

  // Own steps that leave the store alone.
  predicate Quiet(a: Action) {
    a.Probe? || a.Identify? || a.Compare? || a.ChooseTemp? || a.BeginCommit? || a.OpenSource? || a.OpenTarget?
    || a.Verify? || a.Finish? || a.Abort?
  }

  // What a quiet step may change, and which one changes it.
  predicate Quieted(s: State, a: Action, t: State) {
    && t == s.(temp := t.temp, access := t.access, source := t.source, dest := t.dest, phase := t.phase,
               meddled := t.meddled)
    && (t.access != s.access ==> a.Identify?) && (t.dest != s.dest ==> a.OpenTarget?)
    && (t.temp != s.temp ==> a.ChooseTemp?)
  }

  lemma CaptureShape(s: State, a: Action)
    requires Enabled(s, a) && (a.Probe? || a.Identify?)
    ensures Quieted(s, a, CaptureStep(s, a))
  {
  }

  lemma PrepareShape(s: State, a: Action)
    requires Enabled(s, a) && (a.Compare? || a.ChooseTemp?)
    ensures Quieted(s, a, PrepareStep(s, a))
  {
  }

  lemma CommitShape(s: State, a: Action)
    requires Enabled(s, a) && (a.BeginCommit? || a.OpenSource? || a.OpenTarget? || a.Verify? || a.Finish?)
    ensures Quieted(s, a, CommitStep(s, a))
  {
  }

  lemma QuietShape(s: State, a: Action)
    requires Enabled(s, a) && Quiet(a)
    ensures Quieted(s, a, Next(s, a))
  {
    if a.Probe? || a.Identify? {
      CaptureShape(s, a);
    } else if a.Compare? || a.ChooseTemp? {
      PrepareShape(s, a);
    } else if !a.Abort? {
      CommitShape(s, a);
    }
  }

  lemma GuardShape(s: State, a: Action)
    requires Enabled(s, a) && (a.Guard? || a.DropTemp?)
    ensures var t := Next(s, a); t == s.(names := t.names, phase := t.phase)
  {
  }

  predicate Writes(a: Action) { a.CreateTemp? || a.Stage? || a.Truncate? || a.CreateTarget? || a.CopyChunk? }

  lemma WritingWrites(s: State, a: Action)
    requires Inv(s) && Enabled(s, a) && Writes(a)
    ensures Written(s) <= Written(Next(s, a))
    ensures forall i | i in s.data :: i in Next(s, a).data
    ensures forall i | i in s.data && i !in Written(Next(s, a)) :: Next(s, a).data[i] == s.data[i]
  {
  }

  lemma OwnWrites(s: State, a: Action)
    requires Inv(s) && Enabled(s, a) && Own(a)
    ensures Written(s) <= Written(Next(s, a))
    ensures forall i | i in s.data :: i in Next(s, a).data
    ensures forall i | i in s.data && i !in Written(Next(s, a)) :: Next(s, a).data[i] == s.data[i]
  {
    if Writes(a) {
      WritingWrites(s, a);
    } else if Quiet(a) {
      QuietShape(s, a);
    } else {
      GuardShape(s, a);
    }
  }

  lemma EnvWrites(s: State, a: Action)
    requires Enabled(s, a) && !Own(a) && forall i | i in s.data :: i < s.next
    ensures Written(s) == Written(Next(s, a))
    ensures forall i | i in s.data :: i in Next(s, a).data
    ensures forall i | i in s.data && !(a.EnvWrite? && a.inode == i) :: Next(s, a).data[i] == s.data[i]
  {
    EnvShape(s, a);
    if !a.EnvCreate? && !a.EnvWrite? { assert Next(s, a).data == s.data; }
  }

  lemma WrittenStep(s: State, a: Action)
    requires Inv(s) && Enabled(s, a)
    ensures Written(s) <= Written(Next(s, a))
    ensures forall i | i in s.data :: i in Next(s, a).data
    ensures Own(a) ==> forall i | i in s.data && i !in Written(Next(s, a)) :: Next(s, a).data[i] == s.data[i]
    ensures !Own(a) ==> forall i | i in s.data && !(a.EnvWrite? && a.inode == i) :: Next(s, a).data[i] == s.data[i]
  {
    if Own(a) { OwnWrites(s, a); } else { EnvWrites(s, a); }
  }

  // What inode `i` would hold had the download never written to it.
  function Replayed(run: seq<Action>, i: Inode, content: Bytes): Bytes
    decreases |run|
  {
    if run == [] then content
    else Replayed(run[1..], i, if run[0].EnvWrite? && run[0].inode == i then run[0].bytes else content)
  }

  lemma {:induction false} WrittenGrows(s: State, run: seq<Action>)
    requires Inv(s) && Valid(s, run)
    ensures Written(s) <= Written(Exec(s, run))
    decreases |run|
  {
    if run != [] {
      WrittenStep(s, run[0]);
      StepKeeps(s, run[0]);
      WrittenGrows(Next(s, run[0]), run[1..]);
    }
  }

  // Over a whole run, every other file ends as its other writers left it.
  lemma {:induction false} OthersAreUntouched(s: State, run: seq<Action>, i: Inode)
    requires Inv(s) && Valid(s, run) && i in s.data && i !in Written(Exec(s, run))
    ensures i in Exec(s, run).data && Exec(s, run).data[i] == Replayed(run, i, s.data[i])
    decreases |run|
  {
    if run != [] {
      var t := Next(s, run[0]);
      WrittenStep(s, run[0]);
      StepKeeps(s, run[0]);
      WrittenGrows(t, run[1..]);
      OthersAreUntouched(t, run[1..], i);
    }
  }

  lemma MineStep(s: State, a: Action, i: Inode)
    requires Enabled(s, a) && i in s.data && i < s.next && i !in s.mine
    ensures i in Next(s, a).data && i !in Next(s, a).mine
  {
    if !a.CreateTemp? && !a.CreateTarget? { assert Next(s, a).mine == s.mine; }
  }

  // Only files that did not exist before can be this download's own.
  lemma {:induction false} MineIsNew(s: State, run: seq<Action>, i: Inode)
    requires Inv(s) && Valid(s, run) && i in s.data && i !in s.mine
    ensures i !in Exec(s, run).mine
    decreases |run|
  {
    if run != [] {
      MineStep(s, run[0], i);
      StepKeeps(s, run[0]);
      MineIsNew(Next(s, run[0]), run[1..], i);
    }
  }

  lemma WrittenIsAuthorised(s: State, i: Inode)
    requires Inv(s) && i in Written(s)
    ensures i in s.mine || (s.access == Replace(i) && s.writing)
  {
  }

  // A file that someone else put there, before or during the download, ends as its other
  // writers left it, unless it is the captured one and the commit got as far as truncating it.
  lemma ForeignFilesSurvive(s: State, run: seq<Action>, i: Inode)
    requires Inv(s) && Valid(s, run) && i in s.data && i !in s.mine
    requires !(Exec(s, run).access == Replace(i) && Exec(s, run).writing)
    ensures i in Exec(s, run).data && Exec(s, run).data[i] == Replayed(run, i, s.data[i])
  {
    MineIsNew(s, run, i);
    ReachableInv(s, run);
    if i in Written(Exec(s, run)) {
      WrittenIsAuthorised(Exec(s, run), i);
    }
    OthersAreUntouched(s, run, i);
  }

  // ----- names

  lemma NamesStep(s: State, a: Action, n: Name)
    requires Enabled(s, a) && Own(a) && n in s.names
    ensures var t := Next(s, a);
            || (n in t.names && t.names[n] == s.names[n])
            || (a.Guard? && n == s.target && s.dest.Some? && s.names[n] == File(s.dest.value))
            || (a.DropTemp? && n == s.temp)
  {
    if !a.Guard? && !a.DropTemp? && !a.CreateTemp? && !a.CreateTarget? { assert Next(s, a).names == s.names; }
  }

  // Own steps take away a name only when a guard runs, and the target's guard only for its own file.
  lemma OwnStepsKeepNames(s: State, a: Action, n: Name)
    requires Inv(s) && Enabled(s, a) && Own(a) && n in s.names
    ensures var t := Next(s, a);
            || (n in t.names && t.names[n] == s.names[n])
            || (a.Guard? && n == s.target && s.names[n].File? && s.names[n].inode in s.mine)
            || (a.DropTemp? && n == s.temp)
  {
    NamesStep(s, a, n);
  }

  // ----- a taken or replaced target

  // No way back to success.
  predicate Doomed(s: State) {
    || s.phase.Guarding? || ((s.phase.Finishing? || s.phase.Done?) && !s.phase.ok)
    || (s.phase.TargetOpen? && s.access.Replace? && s.dest != Some(s.access.inode))
  }

  lemma DoomedStep(s: State, a: Action)
    requires Inv(s) && Doomed(s) && !s.writing && Enabled(s, a)
    ensures Doomed(Next(s, a)) && !Next(s, a).writing
  {
  }

  lemma {:induction false} DoomedForever(s: State, run: seq<Action>)
    requires Inv(s) && Doomed(s) && !s.writing && Valid(s, run)
    ensures Doomed(Exec(s, run)) && !Exec(s, run).writing
    decreases |run|
  {
    if run != [] {
      DoomedStep(s, run[0]);
      StepKeeps(s, run[0]);
      DoomedForever(Next(s, run[0]), run[1..]);
    }
  }

  // What a step finds under a name is not what it needs: a link or something else that is not a
  // regular file, a name that is taken, or a target that is no longer the captured one.
  predicate Unfit(s: State, a: Action) {
    match a
    case Probe => Lookup(s, s.target) == Some(Other)
    case Identify => s.phase == Probed(true) && (s.target !in s.names || s.names[s.target].Other?)
    case Compare => !TargetAsExpected(s)
    case ChooseTemp(name) => Lookup(s, name) == Some(Other)
    case CreateTemp => s.temp in s.names
    case BeginCommit => Lookup(s, s.target) == Some(Other) || Lookup(s, s.temp) == Some(Other)
    case OpenSource(_) => s.temp !in s.names
    case OpenTarget => !TargetAsExpected(s)
    case CreateTarget => !TargetAsExpected(s)
    case _ => false
  }

  lemma UnfitDooms(s: State, a: Action)
    requires Inv(s) && Enabled(s, a) && Unfit(s, a)
    ensures Doomed(Next(s, a)) && !Next(s, a).writing
  {
  }

  // If a step finds an unfit name, the download fails on every continuation, and every file that it
  // did not create keeps what its writers put there.
  lemma UnfitNameFails(s: State, a: Action, run: seq<Action>, i: Inode)
    requires Inv(s) && Enabled(s, a) && Unfit(s, a)
    requires Valid(Next(s, a), run) && i in s.data && i !in s.mine
    ensures !Succeeded(Exec(Next(s, a), run).phase)
    ensures var t := Exec(Next(s, a), run); i in t.data && t.data[i] == Replayed(run, i, s.data[i])
  {
    var t := Next(s, a);
    StepKeeps(s, a);
    UnfitDooms(s, a);
    DoomedForever(t, run);
    WrittenStep(s, a);
    MineStep(s, a, i);
    if i in Written(t) { WrittenIsAuthorised(t, i); }
    ForeignFilesSurvive(t, run, i);
  }

  // ----- content

  // The staged file, as long as nobody else touches it or its name.
  predicate StagedInv(s: State) {
    && (s.phase.Named? || s.tempInode.Some? ==> s.temp != s.target)
    && (!s.meddled && s.tempInode.Some? ==>
          && s.tempInode.value in s.data && s.data[s.tempInode.value] == s.staged
          && (!s.phase.Done? ==> Lookup(s, s.temp) == Some(File(s.tempInode.value)))
          && (Reading(s.phase) ==> s.source == s.tempInode.value))
  }

  // The copy so far, and the finished copy.
  predicate CopyInv(s: State) {
    !s.meddled && s.dest.Some? && s.dest.value in s.data ==>
      && (s.phase.Copying? ==> s.pos <= |s.staged| && s.data[s.dest.value] == s.staged[..s.pos])
      && (Succeeded(s.phase) ==> s.data[s.dest.value] == s.staged)
  }

  predicate ContentInv(s: State) { StagedInv(s) && CopyInv(s) }

  // Steps that change neither contents nor names.
  lemma QuietContent(s: State, a: Action)
    requires Inv(s) && ContentInv(s) && Enabled(s, a)
    requires a.Probe? || a.Identify? || a.Compare? || a.ChooseTemp? || a.BeginCommit? || a.OpenSource?
    ensures ContentInv(Next(s, a))
  {
  }

  lemma QuietCommitContent(s: State, a: Action)
    requires Inv(s) && ContentInv(s) && Enabled(s, a)
    requires a.OpenTarget? || a.Verify? || a.Finish? || a.Abort?
    ensures ContentInv(Next(s, a))
  {
    if a.Finish? && !s.meddled { assert s.staged[..|s.staged|] == s.staged; }
  }

  lemma StageContent(s: State, a: Action)
    requires Inv(s) && ContentInv(s) && Enabled(s, a) && (a.CreateTemp? || a.Stage?)
    ensures ContentInv(Next(s, a))
  {
  }

  lemma StartCopyContent(s: State, a: Action)
    requires Inv(s) && ContentInv(s) && Enabled(s, a) && (a.Truncate? || a.CreateTarget?)
    ensures ContentInv(Next(s, a))
  {
  }

  lemma WriteNext(staged: Bytes, pos: nat, n: nat)
    requires pos + n <= |staged|
    ensures WriteAt(staged[..pos], pos, staged[pos..pos + n]) == staged[..pos + n]
  {
  }

  lemma CopyContent(s: State, a: Action)
    requires Inv(s) && ContentInv(s) && Enabled(s, a) && a.CopyChunk?
    ensures ContentInv(Next(s, a))
  {
    if !s.meddled { WriteNext(s.staged, s.pos, a.size); }
  }

  lemma GuardContent(s: State, a: Action)
    requires Inv(s) && ContentInv(s) && Enabled(s, a) && (a.Guard? || a.DropTemp?)
    ensures ContentInv(Next(s, a))
  {
  }

  // Other programs that touch neither the staged file's name nor a file in use.
  lemma EnvFrameContent(s: State, t: State)
    requires ContentInv(s) && t == s.(names := t.names, data := t.data, next := t.next, meddled := t.meddled)
    requires !t.meddled ==> !s.meddled && Lookup(t, s.temp) == Lookup(s, s.temp)
    requires !t.meddled ==> forall i | i in s.data && InUse(s, i) :: i in t.data && t.data[i] == s.data[i]
    requires s.tempInode.Some? ==> s.tempInode.value in s.data
    requires s.dest.Some? && s.dest.value !in s.data ==> !s.writing
    requires s.phase.Copying? || Succeeded(s.phase) ==> s.writing
    ensures ContentInv(t)
  {
  }

  lemma EnvSpares(s: State, a: Action)
    requires Enabled(s, a) && !Own(a) && forall i | i in s.data :: i < s.next
    ensures var t := Next(s, a);
            !t.meddled ==>
              && !s.meddled && Lookup(t, s.temp) == Lookup(s, s.temp)
              && forall i | i in s.data && InUse(s, i) :: i in t.data && t.data[i] == s.data[i]
  {
    if !a.EnvCreate? && !a.EnvWrite? { assert Next(s, a).data == s.data; }
  }

  lemma EnvContent(s: State, a: Action)
    requires Inv(s) && ContentInv(s) && Enabled(s, a) && !Own(a)
    ensures ContentInv(Next(s, a))
  {
    EnvShape(s, a);
    EnvSpares(s, a);
    EnvFrameContent(s, Next(s, a));
  }

  lemma StepKeepsContent(s: State, a: Action)
    requires Inv(s) && ContentInv(s) && Enabled(s, a)
    ensures ContentInv(Next(s, a))
  {
    match a
    case Probe | Identify | Compare | ChooseTemp(_) | BeginCommit | OpenSource(_) => QuietContent(s, a);
    case OpenTarget | Verify | Finish | Abort => QuietCommitContent(s, a);
    case CreateTemp | Stage(_) => StageContent(s, a);
    case Truncate | CreateTarget => StartCopyContent(s, a);
    case CopyChunk(_) => CopyContent(s, a);
    case Guard(_) | DropTemp(_) => GuardContent(s, a);
    case _ => EnvContent(s, a);
  }

  lemma {:induction false} ReachableContent(s: State, run: seq<Action>)
    requires Inv(s) && ContentInv(s) && Valid(s, run)
    ensures ContentInv(Exec(s, run))
    decreases |run|
  {
    if run != [] {
      StepKeepsContent(s, run[0]);
      StepKeeps(s, run[0]);
      ReachableContent(Next(s, run[0]), run[1..]);
    }
  }

  // ----- what others did, read off the run

  // Another program does something to the staged file's name, or writes to a file in use.
  predicate Disturbs(s: State, a: Action) {
    && (s.phase.Named? || s.tempInode.Some?)
    && (Touches(a, s.temp) || (a.EnvWrite? && InUse(s, a.inode)))
  }

  predicate Undisturbed(s: State, run: seq<Action>)
    requires Valid(s, run)
    decreases |run|
  {
    run == [] || (!Disturbs(s, run[0]) && Undisturbed(Next(s, run[0]), run[1..]))
  }

  // The bytes given to the staged file over a run.
  function StagedBytes(run: seq<Action>): Bytes {
    if run == [] then [] else (if run[0].Stage? then run[0].bytes else []) + StagedBytes(run[1..])
  }

  // The bookkeeping flag is only ever raised by such an action.
  predicate FlagInv(s: State) { s.phase.Named? || s.tempInode.Some? ==> !s.meddled }

  lemma FlagOwn(s: State, a: Action)
    requires Roles(s) && FlagInv(s) && Enabled(s, a) && Own(a)
    ensures FlagInv(Next(s, a))
  {
    if Quiet(a) { QuietShape(s, a); } else if !Writes(a) { GuardShape(s, a); }
  }

  lemma FlagEnv(s: State, a: Action)
    requires FlagInv(s) && Enabled(s, a) && !Own(a) && !Disturbs(s, a)
    ensures FlagInv(Next(s, a))
  {
  }

  lemma {:induction false} FlagRun(s: State, run: seq<Action>)
    requires Inv(s) && FlagInv(s) && Valid(s, run) && Undisturbed(s, run)
    ensures FlagInv(Exec(s, run))
    decreases |run|
  {
    if run != [] {
      if Own(run[0]) { FlagOwn(s, run[0]); } else { FlagEnv(s, run[0]); }
      StepKeeps(s, run[0]);
      FlagRun(Next(s, run[0]), run[1..]);
    }
  }

  lemma StagedStep(s: State, a: Action)
    requires Enabled(s, a)
    ensures Next(s, a).staged == s.staged + (if a.Stage? then a.bytes else [])
  {
    if Quiet(a) { QuietShape(s, a); } else if a.Guard? || a.DropTemp? { GuardShape(s, a); }
    else if !Own(a) { EnvShape(s, a); }
  }

  lemma {:induction false} StagedRun(s: State, run: seq<Action>)
    requires Valid(s, run)
    ensures Exec(s, run).staged == s.staged + StagedBytes(run)
    decreases |run|
  {
    if run == [] {
      assert s.staged + [] == s.staged;
    } else {
      StagedStep(s, run[0]);
      StagedRun(Next(s, run[0]), run[1..]);
      var first := if run[0].Stage? then run[0].bytes else [];
      assert (s.staged + first) + StagedBytes(run[1..]) == s.staged + (first + StagedBytes(run[1..]));
    }
  }

  // A successful commit went to an authorised file; and when, over the whole run, no other program did
  // anything to the staged file's name or wrote to a file in use, it holds exactly the staged bytes.
  lemma SuccessMeans(s: State, run: seq<Action>)
    requires Init(s) && Valid(s, run) && Succeeded(Exec(s, run).phase)
    ensures var t := Exec(s, run);
            && t.dest.Some? && t.dest.value in t.data
            && (t.access == Replace(t.dest.value) || (t.access == CreateNew && t.dest.value in t.mine))
            && (Undisturbed(s, run) ==> t.data[t.dest.value] == StagedBytes(run))
  {
    InitInv(s);
    ReachableInv(s, run);
    ReachableContent(s, run);
    StagedRun(s, run);
    assert s.staged + StagedBytes(run) == StagedBytes(run);
    if Undisturbed(s, run) { FlagRun(s, run); }
  }

  // The target's name leads to the result, unless another program does something to that name.
  predicate NameInv(s: State) {
    && (s.phase.Start? || s.phase.Probed? || s.phase.Captured? || s.phase.Checked? || s.phase.Done?
        || s.temp != s.target)
    && (s.access.Replace? ==> Lookup(s, s.target) == Some(File(s.access.inode)))
    && (s.access.CreateNew? && s.writing && (s.phase.Copying? || Succeeded(s.phase)) ==>
          Lookup(s, s.target) == Some(File(FromSome(s.dest))))
  }

  lemma NameEnv(s: State, a: Action)
    requires NameInv(s) && Enabled(s, a) && !Own(a) && !Touches(a, s.target)
    ensures NameInv(Next(s, a))
  {
    EnvShape(s, a);
    assert Lookup(Next(s, a), s.target) == Lookup(s, s.target);
  }

  lemma NameQuiet(s: State, a: Action)
    requires Roles(s) && Destination(s) && StagedInv(s) && NameInv(s) && Enabled(s, a) && Quiet(a)
    ensures NameInv(Next(s, a))
  {
    QuietShape(s, a);
  }

  lemma NameGuard(s: State, a: Action)
    requires Roles(s) && NameInv(s) && Enabled(s, a) && (a.Guard? || a.DropTemp?)
    ensures NameInv(Next(s, a))
  {
    GuardShape(s, a);
  }

  lemma NameWrites(s: State, a: Action)
    requires Inv(s) && NameInv(s) && Enabled(s, a) && Writes(a)
    ensures NameInv(Next(s, a))
  {
    WritesShape(s, a);
  }

  lemma NameOwn(s: State, a: Action)
    requires Inv(s) && StagedInv(s) && NameInv(s) && Enabled(s, a) && Own(a)
    ensures NameInv(Next(s, a))
  {
    if Quiet(a) { NameQuiet(s, a); } else if Writes(a) { NameWrites(s, a); } else { NameGuard(s, a); }
  }

  lemma {:induction false} NameRun(s: State, run: seq<Action>)
    requires Inv(s) && ContentInv(s) && NameInv(s) && Valid(s, run)
    requires forall i | 0 <= i < |run| :: !Touches(run[i], s.target)
    ensures NameInv(Exec(s, run)) && Exec(s, run).target == s.target
    decreases |run|
  {
    if run != [] {
      if Own(run[0]) { NameOwn(s, run[0]); } else { NameEnv(s, run[0]); }
      TargetIsFixed(s, run[0]);
      StepKeeps(s, run[0]);
      StepKeepsContent(s, run[0]);
      NameRun(Next(s, run[0]), run[1..]);
    }
  }

  lemma TargetIsFixed(s: State, a: Action)
    requires Enabled(s, a)
    ensures Next(s, a).target == s.target
  {
    if Quiet(a) {
      QuietShape(s, a);
    } else if Writes(a) {
      WritesShape(s, a);
    } else if Own(a) {
      GuardShape(s, a);
    } else {
      EnvShape(s, a);
    }
  }

  lemma WritesShape(s: State, a: Action)
    requires Enabled(s, a) && Writes(a)
    ensures Next(s, a).target == s.target && Next(s, a).temp == s.temp && Next(s, a).access == s.access
  {
  }

  lemma SuccessIsUnderTarget(s: State, run: seq<Action>)
    requires Init(s) && Valid(s, run) && Succeeded(Exec(s, run).phase)
    requires forall i | 0 <= i < |run| :: !Touches(run[i], s.target)
    ensures var t := Exec(s, run); t.dest.Some? && Lookup(t, s.target) == Some(File(t.dest.value))
  {
    InitInv(s);
    NameRun(s, run);
    ReachableInv(s, run);
  }

  // A failure before the destination was settled leaves the captured file as it was.
  lemma EarlyFailureKeepsTarget(s: State, run: seq<Action>, i: Inode)
    requires Init(s) && Valid(s, run) && i in s.data && !Exec(s, run).writing
    ensures i in Exec(s, run).data && Exec(s, run).data[i] == Replayed(run, i, s.data[i])
  {
    InitInv(s);
    ForeignFilesSurvive(s, run, i);
  }

  // ----- the temporary's guard

  // The entry `e` is gone once the guard has removed the temporary path.
  ghost predicate TakesAway(s: State, e: Entry)
    requires s.phase.Finishing?
  {
    exists n :: n in s.names && n !in Next(s, DropTemp(true)).names && s.names[n] == e
  }

  // An entry that leads to no file of this download.
  predicate Foreign(s: State, e: Entry) { !(e.File? && e.inode in s.mine) }

  // The comparison that the new target's guard makes before it removes a name.
  predicate IdentityMatches(s: State) {
    s.tempInode.Some? && Lookup(s, s.temp) == Some(File(s.tempInode.value))
  }

  lemma TakesAwayIff(s: State, e: Entry)
    requires s.phase.Finishing?
    ensures TakesAway(s, e) <==> Lookup(s, s.temp) == Some(e)
  {
    var t := Next(s, DropTemp(true));
    assert t.names == s.names - {s.temp};
    if Lookup(s, s.temp) == Some(e) { assert s.temp in s.names && s.temp !in t.names; }
  }

  // In every reachable state: the guard takes away the staged file exactly when the identity check
  // it does not make would have succeeded; and after a failed creation whatever still carries the
  // name is someone else's.
  lemma DropRemovesOwn(start: State, run: seq<Action>)
    requires Init(start) && Valid(start, run) && Exec(start, run).phase.Finishing?
    ensures var s := Exec(start, run);
            && ((s.tempInode.Some? && TakesAway(s, File(s.tempInode.value))) <==> IdentityMatches(s))
            && (s.temp in s.names && !IdentityMatches(s) ==>
                  exists e :: TakesAway(s, e) && (Foreign(s, e) || (s.access.CreateNew? && s.dest == Some(e.inode))))
            && (s.temp in s.names && s.tempInode.None? ==> exists e :: TakesAway(s, e) && Foreign(s, e))
  {
    var s := Exec(start, run);
    InitInv(start);
    ReachableInv(start, run);
    ReachableMine(start, run);
    if s.tempInode.Some? { TakesAwayIff(s, File(s.tempInode.value)); }
    if s.temp in s.names { TakesAwayIff(s, s.names[s.temp]); }
  }

  // All files of this download: the staged one and, in create mode, the destination.
  predicate MineInv(s: State) {
    forall i | i in s.mine ::
      s.tempInode == Some(i) || (s.access.CreateNew? && s.writing && s.dest == Some(i))
  }

  lemma MineGrows(s: State, a: Action)
    requires Inv(s) && MineInv(s) && Enabled(s, a) && Writes(a)
    ensures MineInv(Next(s, a))
  {
  }

  lemma MineKeeps(s: State, a: Action)
    requires Inv(s) && MineInv(s) && Enabled(s, a)
    ensures MineInv(Next(s, a))
  {
    if Writes(a) {
      MineGrows(s, a);
    } else if Quiet(a) {
      QuietShape(s, a);
    } else if Own(a) {
      GuardShape(s, a);
    } else {
      EnvShape(s, a);
    }
  }

  lemma {:induction false} ReachableMine(s: State, run: seq<Action>)
    requires Inv(s) && MineInv(s) && Valid(s, run)
    ensures MineInv(Exec(s, run))
    decreases |run|
  {
    if run != [] {
      MineKeeps(s, run[0]);
      StepKeeps(s, run[0]);
      ReachableMine(Next(s, run[0]), run[1..]);
    }
  }

  // Another program does something to this name.
  predicate Touches(a: Action, n: Name) {
    match a
    case EnvCreate(name, _) => name == n
    case EnvPlaceOther(name) => name == n
    case EnvHardLink(name, _) => name == n
    case EnvUnlink(name) => name == n
    case EnvRename(from, to) => from == n || to == n
    case _ => false
  }

  // The staged file still has its name, or the guard has run.
  predicate NameHeld(s: State, n: Name) {
    s.temp == n && n != s.target && s.tempInode.Some? && (IdentityMatches(s) || s.phase.Done?)
  }

  lemma NameHeldWrites(s: State, a: Action, n: Name)
    requires Inv(s) && NameHeld(s, n) && Enabled(s, a) && Writes(a)
    ensures NameHeld(Next(s, a), n)
  {
  }

  lemma NameHeldGuards(s: State, a: Action, n: Name)
    requires NameHeld(s, n) && Enabled(s, a) && (a.Guard? || a.DropTemp?)
    ensures NameHeld(Next(s, a), n)
  {
  }

  lemma NameHeldBesides(s: State, a: Action, n: Name)
    requires NameHeld(s, n) && Enabled(s, a) && !Own(a) && !Touches(a, n)
    ensures NameHeld(Next(s, a), n)
  {
  }

  lemma NameHeldQuiet(s: State, a: Action, n: Name)
    requires Roles(s) && NameHeld(s, n) && Enabled(s, a) && Quiet(a)
    ensures NameHeld(Next(s, a), n)
  {
    QuietShape(s, a);
  }

  lemma NameHeldStep(s: State, a: Action, n: Name)
    requires Inv(s) && NameHeld(s, n) && Enabled(s, a) && !Touches(a, n)
    ensures NameHeld(Next(s, a), n)
  {
    if Writes(a) {
      NameHeldWrites(s, a, n);
    } else if Quiet(a) {
      NameHeldQuiet(s, a, n);
    } else if Own(a) {
      NameHeldGuards(s, a, n);
    } else {
      NameHeldBesides(s, a, n);
    }
  }

  lemma {:induction false} NameHeldRun(s: State, run: seq<Action>, n: Name)
    requires Inv(s) && NameHeld(s, n) && Valid(s, run) && forall i | 0 <= i < |run| :: !Touches(run[i], n)
    ensures NameHeld(Exec(s, run), n)
    decreases |run|
  {
    if run != [] {
      NameHeldStep(s, run[0], n);
      StepKeeps(s, run[0]);
      NameHeldRun(Next(s, run[0]), run[1..], n);
    }
  }

  // From its creation on, as long as no other program does anything to the name (they may write to
  // the staged file itself), what the guard removes is the staged file.
  lemma UntouchedNameIsOwn(start: State, before: seq<Action>, after: seq<Action>)
    requires Init(start) && Valid(start, before)
    requires var s := Exec(start, before);
             && Enabled(s, CreateTemp) && s.temp !in s.names && Valid(Next(s, CreateTemp), after)
             && (forall i | 0 <= i < |after| :: !Touches(after[i], s.temp))
             && Exec(Next(s, CreateTemp), after).phase.Finishing?
    ensures var t := Exec(Next(Exec(start, before), CreateTemp), after);
            t.tempInode.Some? && TakesAway(t, File(t.tempInode.value))
  {
    var s := Exec(start, before);
    InitInv(start);
    ReachableInv(start, before);
    ReachableContent(start, before);
    StepKeeps(s, CreateTemp);
    NameHeldRun(Next(s, CreateTemp), after, s.temp);
    var t := Exec(Next(s, CreateTemp), after);
    TakesAwayIff(t, File(t.tempInode.value));
  }
}
