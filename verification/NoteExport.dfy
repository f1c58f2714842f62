/** Planning an export of the notes tree: one directory per folder, one file per note. */
module NoteExport {
  import opened Common
  import opened ExportNames

  type Id = string
  type Path = seq<string>   // the components below the export root

  datatype Folder = Folder(id: Id, parent: Option<Id>, name: string)
  datatype Note = Note(id: Id, parent: Option<Id>, title: string, markdown: string)
  datatype Snapshot = Snapshot(folders: seq<Folder>, notes: seq<Note>)

  datatype PlannedNote = PlannedNote(path: Path, markdown: string)
  datatype Plan = Plan(directories: seq<Path>, notes: seq<PlannedNote>)
  datatype PlanError = DuplicateId | InvalidHierarchy

  type Places = map<Option<Id>, Path>
  type Names = map<Path, set<string>>

  // ----- which snapshots have a plan

  function Ids(s: Snapshot): seq<Id> {
    seq(|s.folders|, i requires 0 <= i < |s.folders| => s.folders[i].id)
    + seq(|s.notes|, i requires 0 <= i < |s.notes| => s.notes[i].id)
  }

  predicate Distinct<T(==)>(s: seq<T>) { forall i, j | 0 <= i < j < |s| :: s[i] != s[j] }

  // Following parent links from `node` reaches the root within `n` steps.
  predicate Reaches(folders: seq<Folder>, node: Option<Id>, n: nat)
    decreases n
  {
    node.None? || (n > 0 && exists f | f in folders :: f.id == node.value && Reaches(folders, f.parent, n - 1))
  }

  ghost predicate Rooted(folders: seq<Folder>, node: Option<Id>) { exists n: nat :: Reaches(folders, node, n) }

  ghost predicate Plannable(s: Snapshot) {
    && (forall f | f in s.folders :: Rooted(s.folders, f.parent))
    && (forall i | 0 <= i < |s.notes| :: Rooted(s.folders, s.notes[i].parent))
  }

  lemma RootedChild(folders: seq<Folder>, f: Folder)
    requires f in folders && Rooted(folders, f.parent)
    ensures Rooted(folders, Some(f.id))
  {
    var n: nat :| Reaches(folders, f.parent, n);
    assert Reaches(folders, Some(f.id), n + 1);
  }

  // Places that are closed under the parent links hold everything that is rooted.
  lemma {:induction false} ClosedHoldsRooted(folders: seq<Folder>, places: Places, node: Option<Id>, n: nat)
    requires None in places
    requires forall f | f in folders :: f.parent in places ==> Some(f.id) in places
    requires Reaches(folders, node, n)
    ensures node in places
    decreases n
  {
    if node.Some? {
      var f :| f in folders && f.id == node.value && Reaches(folders, f.parent, n - 1);
      ClosedHoldsRooted(folders, places, f.parent, n - 1);
    }
  }

  // ----- entries never collide

  function Dir(p: Path): Path requires p != [] { p[..|p| - 1] }

  function Last(p: Path): string requires p != [] { p[|p| - 1] }

  function UpperPath(p: Path, upper: char -> string): Path {
    seq(|p|, i requires 0 <= i < |p| => Upper(p[i], upper))
  }

  ghost predicate Apart(entries: seq<Path>, upper: char -> string) {
    forall i, j | 0 <= i < j < |entries| :: UpperPath(entries[i], upper) != UpperPath(entries[j], upper)
  }

  function Taken(names: Names, dir: Path): set<string> { if dir in names then names[dir] else {} }

  ghost predicate Entered(names: Names, homes: set<Path>, p: Path, upper: char -> string) {
    p != [] && Dir(p) in homes && Upper(Last(p), upper) in Taken(names, Dir(p))
  }

  // `homes` are the directories that can hold entries.
  ghost predicate Registry(names: Names, entries: seq<Path>, homes: set<Path>, upper: char -> string) {
    && (forall h | h in homes :: h == [] || h in entries)
    && (forall p | p in entries :: Entered(names, homes, p, upper))
    && Apart(entries, upper)
    && (forall d | d in names :: |names[d]| <= |entries|)
  }

  lemma UpperPathSplit(p: Path, q: Path, upper: char -> string)
    requires p != [] && q != [] && UpperPath(p, upper) == UpperPath(q, upper)
    ensures UpperPath(Dir(p), upper) == UpperPath(Dir(q), upper)
    ensures Upper(Last(p), upper) == Upper(Last(q), upper)
  {
    var n := |UpperPath(p, upper)|;
    assert |p| == n == |q|;
    assert UpperPath(Dir(p), upper) == UpperPath(p, upper)[..n - 1];
    assert UpperPath(Dir(q), upper) == UpperPath(q, upper)[..n - 1];
    assert Upper(Last(p), upper) == UpperPath(p, upper)[n - 1];
    assert Upper(Last(q), upper) == UpperPath(q, upper)[n - 1];
  }

  // Homes that look alike are the same.
  lemma HomesDiffer(entries: seq<Path>, g: Path, h: Path, upper: char -> string)
    requires Apart(entries, upper) && (g == [] || g in entries) && (h == [] || h in entries)
    requires UpperPath(g, upper) == UpperPath(h, upper)
    ensures g == h
  {
    assert |UpperPath(g, upper)| == |g| && |UpperPath(h, upper)| == |h|;
  }

  lemma NewEntryIsApart(names: Names, entries: seq<Path>, homes: set<Path>, dir: Path, name: string, p: Path,
                        upper: char -> string)
    requires Registry(names, entries, homes, upper) && dir in homes && Upper(name, upper) !in Taken(names, dir)
    requires p in entries
    ensures UpperPath(p, upper) != UpperPath(dir + [name], upper)
  {
    if UpperPath(p, upper) == UpperPath(dir + [name], upper) {
      assert Entered(names, homes, p, upper);
      UpperPathSplit(p, dir + [name], upper);
      assert Dir(dir + [name]) == dir;
      HomesDiffer(entries, Dir(p), dir, upper);
    }
  }

  function Register(names: Names, dir: Path, name: string, upper: char -> string): Names {
    names[dir := Taken(names, dir) + {Upper(name, upper)}]
  }

  lemma EnteredGrows(names: Names, homes: set<Path>, dir: Path, name: string, p: Path, upper: char -> string)
    requires Entered(names, homes, p, upper)
    ensures Entered(Register(names, dir, name, upper), homes, p, upper)
  {
  }

  lemma NewEntryIsEntered(names: Names, homes: set<Path>, dir: Path, name: string, upper: char -> string)
    requires dir in homes
    ensures Entered(Register(names, dir, name, upper), homes, dir + [name], upper)
  {
    assert Dir(dir + [name]) == dir && Last(dir + [name]) == name;
  }

  lemma RegisterKeeps(names: Names, entries: seq<Path>, homes: set<Path>, dir: Path, name: string,
                      upper: char -> string)
    requires Registry(names, entries, homes, upper) && dir in homes && Upper(name, upper) !in Taken(names, dir)
    ensures Registry(Register(names, dir, name, upper), entries + [dir + [name]], homes, upper)
  {
    var after, all := Register(names, dir, name, upper), entries + [dir + [name]];
    forall p | p in all ensures Entered(after, homes, p, upper) {
      if p in entries { EnteredGrows(names, homes, dir, name, p, upper); }
      else { NewEntryIsEntered(names, homes, dir, name, upper); }
    }
    forall i, j | 0 <= i < j < |all| ensures UpperPath(all[i], upper) != UpperPath(all[j], upper) {
      if j == |entries| { NewEntryIsApart(names, entries, homes, dir, name, entries[i], upper); }
    }
  }

  lemma NewHome(names: Names, entries: seq<Path>, homes: set<Path>, home: Path, upper: char -> string)
    requires Registry(names, entries, homes, upper) && home in entries
    ensures Registry(names, entries, homes + {home}, upper)
  {
    forall p | p in entries ensures Entered(names, homes + {home}, p, upper) {
      assert Entered(names, homes, p, upper);
    }
  }

  // ----- placing folders

  ghost predicate Named(title: string, markdown: bool, name: string, upper: char -> string) {
    exists k: Attempt :: name == Candidate(Sanitize(title, upper), markdown, k)
  }

  // The entry `p` stands for `title` inside the place of `parent`.
  ghost predicate Under(places: Places, parent: Option<Id>, title: string, markdown: bool, p: Path,
                        upper: char -> string)
  {
    parent in places && p != [] && Dir(p) == places[parent] && Named(title, markdown, Last(p), upper)
  }

  ghost predicate Settled(places: Places, f: Folder, upper: char -> string) {
    Some(f.id) in places && Under(places, f.parent, f.name, false, places[Some(f.id)], upper)
  }

  predicate UniqueIds(folders: seq<Folder>) {
    forall i, j | 0 <= i < j < |folders| :: folders[i].id != folders[j].id
  }

  // Folders still to be placed, against those that have a place.
  ghost predicate Split(folders: seq<Folder>, todo: seq<Folder>, places: Places) {
    && UniqueIds(todo)
    && (forall f | f in todo :: f in folders && Some(f.id) !in places)
    && (forall f | f in folders :: Some(f.id) in places || f in todo)
  }

  ghost predicate AllSettled(folders: seq<Folder>, places: Places, upper: char -> string) {
    && None in places && places[None] == []
    && (forall f | f in folders && Some(f.id) in places :: Settled(places, f, upper))
    && (forall k | k in places :: Rooted(folders, k))
  }

  ghost predicate HomesMatch(places: Places, directories: seq<Path>) {
    forall p :: p in places.Values <==> p == [] || p in directories
  }

  // Every directory comes after the one that holds it.
  ghost predicate ParentsFirst(directories: seq<Path>) {
    forall i | 0 <= i < |directories| ::
      directories[i] != [] && (Dir(directories[i]) == [] || Dir(directories[i]) in directories[..i])
  }

  ghost predicate Progress(folders: seq<Folder>, todo: seq<Folder>, places: Places, names: Names,
                           directories: seq<Path>, upper: char -> string)
  {
    && Split(folders, todo, places)
    && |directories| + |todo| == |folders|
    && AllSettled(folders, places, upper)
    && HomesMatch(places, directories)
    && ParentsFirst(directories)
    && Registry(names, directories, places.Values, upper)
  }

  lemma SplitStep(folders: seq<Folder>, before: seq<Folder>, f: Folder, after: seq<Folder>, places: Places, p: Path)
    requires Split(folders, before + [f] + after, places)
    ensures Split(folders, before + after, places[Some(f.id) := p])
  {
    var todo, rest := before + [f] + after, before + after;
    assert forall i | 0 <= i < |rest| :: rest[i] == todo[if i < |before| then i else i + 1];
    assert todo[|before|] == f;
    forall g | g in rest ensures g in folders && g.id != f.id && Some(g.id) !in places {
      var i :| 0 <= i < |rest| && rest[i] == g;
      assert g == todo[if i < |before| then i else i + 1];
    }
    forall g | g in folders ensures Some(g.id) in places[Some(f.id) := p] || g in rest {
      assert Some(g.id) in places || g in todo;
    }
  }

  lemma SettledStep(folders: seq<Folder>, places: Places, f: Folder, p: Path, upper: char -> string)
    requires AllSettled(folders, places, upper) && f in folders && Some(f.id) !in places
    requires forall g | g in folders && g.id == f.id :: g == f
    requires Under(places, f.parent, f.name, false, p, upper)
    ensures AllSettled(folders, places[Some(f.id) := p], upper)
  {
    var now := places[Some(f.id) := p];
    RootedChild(folders, f);
    forall g | g in folders && Some(g.id) in now ensures Settled(now, g, upper) {
      if g.id != f.id { assert Settled(places, g, upper); }
    }
  }

  lemma HomesStep(places: Places, directories: seq<Path>, key: Option<Id>, p: Path)
    requires HomesMatch(places, directories) && key !in places
    ensures HomesMatch(places[key := p], directories + [p])
    ensures places[key := p].Values == places.Values + {p}
  {
    var now := places[key := p];
    forall q ensures q in now.Values <==> q in places.Values || q == p {
      if q in places.Values {
        var k :| k in places && places[k] == q;
        assert now[k] == q;
      }
      assert now[key] == p;
    }
  }

  lemma ParentsFirstStep(directories: seq<Path>, p: Path)
    requires ParentsFirst(directories) && p != [] && (Dir(p) == [] || Dir(p) in directories)
    ensures ParentsFirst(directories + [p])
  {
    var all := directories + [p];
    forall i | 0 <= i < |all| ensures all[i] != [] && (Dir(all[i]) == [] || Dir(all[i]) in all[..i]) {
      if i < |directories| { assert all[..i] == directories[..i]; } else { assert all[..i] == directories; }
    }
  }

  lemma PlaceStep(folders: seq<Folder>, before: seq<Folder>, f: Folder, after: seq<Folder>, places: Places,
                  names: Names, directories: seq<Path>, name: string, upper: char -> string)
    requires UniqueIds(folders) && Progress(folders, before + [f] + after, places, names, directories, upper)
    requires f.parent in places && Named(f.name, false, name, upper)
    requires Upper(name, upper) !in Taken(names, places[f.parent])
    ensures var p := places[f.parent] + [name];
            Progress(folders, before + after, places[Some(f.id) := p], Register(names, places[f.parent], name, upper),
                     directories + [p], upper)
  {
    var dir := places[f.parent];
    var p := dir + [name];
    assert f in before + [f] + after;
    assert Dir(p) == dir && Last(p) == name && dir in places.Values;
    SplitStep(folders, before, f, after, places, p);
    SettledStep(folders, places, f, p, upper);
    HomesStep(places, directories, Some(f.id), p);
    ParentsFirstStep(directories, p);
    RegisterKeeps(names, directories, places.Values, dir, name, upper);
    NewHome(Register(names, dir, name, upper), directories + [p], places.Values, p, upper);
  }

  lemma TakenIsSmall(names: Names, entries: seq<Path>, homes: set<Path>, dir: Path, upper: char -> string)
    requires Registry(names, entries, homes, upper)
    ensures |Taken(names, dir)| <= |entries|
  {
  }

  // The first remaining folder gets a place if its parent has one; otherwise it waits for the next pass.
  method PlaceFirst(ghost folders: seq<Folder>, unresolved0: seq<Folder>, rest: seq<Folder>,
                    places0: Places, names0: Names, directories0: seq<Path>, upper: char -> string)
    returns (unresolved: seq<Folder>, places: Places, names: Names, directories: seq<Path>)
    requires Uppercasing(upper) && |folders| + 2 <= LAST_INDEX && UniqueIds(folders) && rest != []
    requires Progress(folders, unresolved0 + rest, places0, names0, directories0, upper)
    ensures Progress(folders, unresolved + rest[1..], places, names, directories, upper)
    ensures |unresolved| <= |unresolved0| + 1
    ensures |unresolved| == |unresolved0| + 1 && Stuck(unresolved0, places0) ==> Stuck(unresolved, places)
  {
    var f := rest[0];
    assert unresolved0 + rest == unresolved0 + [f] + rest[1..];
    if f.parent !in places0 {
      StuckStep(unresolved0, f, places0);
      return unresolved0 + [f], places0, names0, directories0;
    }
    var dir := places0[f.parent];
    TakenIsSmall(names0, directories0, places0.Values, dir, upper);
    var name, k := Pick(Taken(names0, dir), f.name, false, upper);
    PlaceStep(folders, unresolved0, f, rest[1..], places0, names0, directories0, name, upper);
    unresolved := unresolved0;
    names := Register(names0, dir, name, upper);
    directories := directories0 + [dir + [name]];
    places := places0[Some(f.id) := dir + [name]];
  }

  // None of these folders has a parent with a place.
  ghost predicate Stuck(folders: seq<Folder>, places: Places) {
    folders == [] || (Stuck(folders[..|folders| - 1], places) && folders[|folders| - 1].parent !in places)
  }

  lemma StuckStep(folders: seq<Folder>, f: Folder, places: Places)
    requires f.parent !in places
    ensures Stuck(folders + [f], places) == Stuck(folders, places)
  {
    assert (folders + [f])[..|folders|] == folders;
  }

  lemma {:induction false} StuckAll(folders: seq<Folder>, places: Places)
    requires Stuck(folders, places)
    ensures forall f | f in folders :: f.parent !in places
  {
    if folders != [] { StuckAll(folders[..|folders| - 1], places); }
  }

  // One pass over the pending folders.
  method PlacePass(ghost folders: seq<Folder>, pending: seq<Folder>, places0: Places, names0: Names,
                   directories0: seq<Path>, upper: char -> string)
    returns (unresolved: seq<Folder>, places: Places, names: Names, directories: seq<Path>)
    requires Uppercasing(upper) && |folders| + 2 <= LAST_INDEX && UniqueIds(folders)
    requires Progress(folders, pending, places0, names0, directories0, upper)
    ensures Progress(folders, unresolved, places, names, directories, upper)
    ensures |unresolved| <= |pending|
    ensures |unresolved| == |pending| ==> Stuck(unresolved, places)
  {
    var rest := pending;
    unresolved, places, names, directories := [], places0, names0, directories0;
    assert [] + pending == pending;
    while rest != []
      invariant Progress(folders, unresolved + rest, places, names, directories, upper)
      invariant |unresolved| + |rest| <= |pending|
      invariant |unresolved| + |rest| == |pending| ==> Stuck(unresolved, places)
    {
      unresolved, places, names, directories :=
        PlaceFirst(folders, unresolved, rest, places, names, directories, upper);
      rest := rest[1..];
    }
    assert unresolved + [] == unresolved;
  }

  lemma StartsWithRoot(folders: seq<Folder>, upper: char -> string)
    requires UniqueIds(folders)
    ensures Progress(folders, folders, map[None := []], map[], [], upper)
  {
    assert Reaches(folders, None, 0);
    var places: Places := map[None := []];
    assert places[None] == [] && places.Values == {[]};
  }

  // A pass that places nothing leaves only folders whose chain never reaches the root.
  lemma StuckIsUnrooted(folders: seq<Folder>, todo: seq<Folder>, places: Places, upper: char -> string)
    requires Split(folders, todo, places) && AllSettled(folders, places, upper)
    requires Stuck(todo, places) && todo != []
    ensures todo[0] in folders && !Rooted(folders, todo[0].parent)
  {
    StuckAll(todo, places);
    assert todo[0] in todo;
    if Rooted(folders, todo[0].parent) {
      var n: nat :| Reaches(folders, todo[0].parent, n);
      ClosedHoldsRooted(folders, places, todo[0].parent, n);
    }
  }

  method PlaceFolders(folders: seq<Folder>, upper: char -> string)
    returns (complete: bool, places: Places, names: Names, directories: seq<Path>)
    requires Uppercasing(upper) && |folders| + 2 <= LAST_INDEX && UniqueIds(folders)
    ensures complete ==> Progress(folders, [], places, names, directories, upper)
    ensures !complete ==> exists f | f in folders :: !Rooted(folders, f.parent)
  {
    places, names, directories := map[None := []], map[], [];
    StartsWithRoot(folders, upper);
    var pending := folders;
    while pending != []
      invariant Progress(folders, pending, places, names, directories, upper)
      decreases |pending|
    {
      var previous := |pending|;
      pending, places, names, directories := PlacePass(folders, pending, places, names, directories, upper);
      if |pending| == previous {
        StuckIsUnrooted(folders, pending, places, upper);
        return false, places, names, directories;
      }
    }
    complete := true;
  }

  // ----- placing notes

  ghost predicate NotePlaced(places: Places, note: Note, planned: PlannedNote, upper: char -> string) {
    planned.markdown == note.markdown && Under(places, note.parent, note.title, true, planned.path, upper)
  }

  function Paths(notes: seq<PlannedNote>): seq<Path> {
    seq(|notes|, i requires 0 <= i < |notes| => notes[i].path)
  }

  lemma PathsStep(directories: seq<Path>, notes: seq<PlannedNote>, planned: PlannedNote)
    ensures directories + Paths(notes + [planned]) == directories + Paths(notes) + [planned.path]
  {
  }

  method PlaceNote(note: Note, places: Places, names0: Names, ghost directories: seq<Path>,
                   planned0: seq<PlannedNote>, upper: char -> string)
    returns (names: Names, planned: seq<PlannedNote>)
    requires Uppercasing(upper) && |directories| + |planned0| + 2 <= LAST_INDEX && note.parent in places
    requires Registry(names0, directories + Paths(planned0), places.Values, upper)
    ensures |planned| == |planned0| + 1 && planned[..|planned0|] == planned0
    ensures NotePlaced(places, note, planned[|planned0|], upper)
    ensures Registry(names, directories + Paths(planned), places.Values, upper)
  {
    ghost var entries := directories + Paths(planned0);
    var dir := places[note.parent];
    TakenIsSmall(names0, entries, places.Values, dir, upper);
    var name, k := Pick(Taken(names0, dir), note.title, true, upper);
    RegisterKeeps(names0, entries, places.Values, dir, name, upper);
    names := Register(names0, dir, name, upper);
    var next := PlannedNote(dir + [name], note.markdown);
    assert Dir(next.path) == dir && Last(next.path) == name;
    PathsStep(directories, planned0, next);
    planned := planned0 + [next];
  }

  // Once every folder has a place, exactly the rooted nodes have one.
  lemma PlacedIffRooted(folders: seq<Folder>, places: Places, node: Option<Id>, upper: char -> string)
    requires AllSettled(folders, places, upper) && forall f | f in folders :: Some(f.id) in places
    ensures node in places <==> Rooted(folders, node)
  {
    if Rooted(folders, node) {
      var n: nat :| Reaches(folders, node, n);
      ClosedHoldsRooted(folders, places, node, n);
    }
  }

  method PlaceNotes(notes: seq<Note>, places: Places, names0: Names, directories: seq<Path>, upper: char -> string)
    returns (complete: bool, planned: seq<PlannedNote>)
    requires Uppercasing(upper) && |directories| + |notes| + 2 <= LAST_INDEX
    requires Registry(names0, directories, places.Values, upper)
    ensures complete <==> forall i | 0 <= i < |notes| :: notes[i].parent in places
    ensures complete ==> |planned| == |notes| && Apart(directories + Paths(planned), upper)
    ensures complete ==> forall i | 0 <= i < |notes| :: NotePlaced(places, notes[i], planned[i], upper)
  {
    var names := names0;
    planned := [];
    assert directories + Paths([]) == directories;
    for i := 0 to |notes|
      invariant |planned| == i
      invariant Registry(names, directories + Paths(planned), places.Values, upper)
      invariant forall j | 0 <= j < i :: notes[j].parent in places && NotePlaced(places, notes[j], planned[j], upper)
    {
      if notes[i].parent !in places {
        return false, planned;
      }
      names, planned := PlaceNote(notes[i], places, names, directories, planned, upper);
    }
    complete := true;
  }

  // ----- the whole plan

  ghost predicate Faithful(s: Snapshot, places: Places, plan: Plan, upper: char -> string) {
    // every folder and every note is an entry of its parent, named after its title
    && AllSettled(s.folders, places, upper)
    && (forall f | f in s.folders :: Some(f.id) in places)
    && HomesMatch(places, plan.directories) && |plan.directories| == |s.folders|
    && |plan.notes| == |s.notes|
    && (forall i | 0 <= i < |s.notes| :: NotePlaced(places, s.notes[i], plan.notes[i], upper))
    // directories can be created in this order, and nothing collides
    && ParentsFirst(plan.directories)
    && Apart(plan.directories + Paths(plan.notes), upper)
  }

  method CheckIds(s: Snapshot) returns (distinct: bool)
    ensures distinct == Distinct(Ids(s))
  {
    var all := Ids(s);
    var ids: set<Id> := {};
    for i := 0 to |all|
      invariant forall x :: x in ids <==> x in all[..i]
      invariant Distinct(all[..i])
    {
      if all[i] in ids {
        return false;
      }
      ids := ids + {all[i]};
    }
    assert all[..|all|] == all;
    return true;
  }

  lemma DistinctFolders(s: Snapshot)
    requires Distinct(Ids(s))
    ensures UniqueIds(s.folders)
  {
    forall i, j | 0 <= i < j < |s.folders| ensures s.folders[i].id != s.folders[j].id {
      assert Ids(s)[i] != Ids(s)[j];
    }
  }

  lemma FoldersRooted(folders: seq<Folder>, places: Places, upper: char -> string)
    requires AllSettled(folders, places, upper) && forall f | f in folders :: Some(f.id) in places
    ensures forall f | f in folders :: Rooted(folders, f.parent)
    ensures forall node :: node in places <==> Rooted(folders, node)
  {
    forall f | f in folders ensures Rooted(folders, f.parent) { assert Settled(places, f, upper); }
    forall node ensures node in places <==> Rooted(folders, node) { PlacedIffRooted(folders, places, node, upper); }
  }

  // `plan_note_export`
  method PlanNoteExport(s: Snapshot, upper: char -> string)
    returns (r: Result<Plan, PlanError>, ghost places: Places)
    requires Uppercasing(upper) && |s.folders| + |s.notes| + 2 <= LAST_INDEX
    ensures r == Err(DuplicateId) <==> !Distinct(Ids(s))
    ensures r.Ok? <==> Distinct(Ids(s)) && Plannable(s)
    ensures r.Ok? ==> Faithful(s, places, r.value, upper)
  {
    places := map[];
    var distinct := CheckIds(s);
    if !distinct {
      return Err(DuplicateId), places;
    }
    DistinctFolders(s);
    var complete, found, names, directories := PlaceFolders(s.folders, upper);
    if !complete {
      return Err(InvalidHierarchy), places;
    }
    FoldersRooted(s.folders, found, upper);
    var notes;
    complete, notes := PlaceNotes(s.notes, found, names, directories, upper);
    if !complete {
      return Err(InvalidHierarchy), places;
    }
    places := found;
    r := Ok(Plan(directories, notes));
  }
}
