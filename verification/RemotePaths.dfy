/** Lexical normal form of remote (POSIX) paths: identity, join, parent, name, and safe copies. */
module RemotePaths {
  import opened Common
  import opened Text

  const NUL: char := 0 as char

  predicate Slash(c: char) { c == '/' }

  // `split('/')`
  function Split(s: string): (r: seq<string>)
    ensures |r| >= 1
    decreases |s|
  {
    if '/' in s then [Before(s, '/')] + Split(After(s, '/')) else [s]
  }

  // `join("/")`
  function JoinAll(parts: seq<string>): string {
    if parts == [] then "" else if |parts| == 1 then parts[0] else parts[0] + "/" + JoinAll(parts[1..])
  }

  // What one component does to the parts so far.
  function Apply(parts: seq<string>, piece: string): seq<string> {
    if piece == "" || piece == "." then parts
    else if piece == ".." then (if parts == [] then [] else parts[..|parts| - 1])
    else parts + [piece]
  }

  function Walk(parts: seq<string>, pieces: seq<string>): seq<string>
    decreases |pieces|
  {
    if pieces == [] then parts else Walk(Apply(parts, pieces[0]), pieces[1..])
  }

  // Paths with a normal form: absolute and without NUL.
  predicate Absolute(path: string) { path != "" && path[0] == '/' && NUL !in path }

  function Parts(path: string): Option<seq<string>> {
    if Absolute(path) then Some(Walk([], Split(path))) else None
  }

  // `posix_path_parts`
  method PosixPathParts(path: string) returns (r: Option<seq<string>>)
    ensures r == Parts(path)
  {
    if path == "" || path[0] != '/' || NUL in path {
      return None;
    }
    var pieces := Split(path);
    var parts: seq<string> := [];
    for i := 0 to |pieces|
      invariant Walk(parts, pieces[i..]) == Walk([], pieces)
    {
      assert pieces[i..][1..] == pieces[i + 1..];
      match pieces[i] {
        case "" => {}
        case "." => {}
        case ".." => {
          if parts != [] {
            parts := parts[..|parts| - 1];
          }
        }
        case piece => {
          parts := parts + [piece];
        }
      }
    }
    r := Some(parts);
  }

  // `file_browser_identity`
  function Identity(path: string): string {
    match Parts(path)
    case Some(parts) => if parts == [] then "/" else "/" + JoinAll(parts)
    case None => path
  }

  // `file_browser_path_eq`
  predicate SamePath(a: string, b: string) { Identity(a) == Identity(b) }

  // `file_browser_join`
  function Join(parent: string, child: string): string {
    var trimmed := TrimEndOf(parent, Slash);
    if trimmed == "" then (if parent != "" && parent[0] == '/' then "/" + child else child)
    else if trimmed == "." then child
    else trimmed + "/" + child
  }

  // `rfind('/')`
  function LastSlash(s: string): (r: Option<nat>)
    ensures r.Some? ==> r.value < |s|
  {
    if s == "" then None else if s[|s| - 1] == '/' then Some(|s| - 1) else LastSlash(s[..|s| - 1])
  }

  // `file_browser_name`
  function Name(path: string): string {
    var pieces := Split(TrimEndOf(path, Slash));
    pieces[|pieces| - 1]
  }

  // `file_browser_parent`
  function Parent(path: string): string {
    var trimmed := TrimEndOf(path, Slash);
    match LastSlash(trimmed)
    case None => "."
    case Some(k) => if k == 0 then "/" else trimmed[..k]
  }

  // `valid_file_browser_child_name`
  predicate ChildName(name: string) { name != "" && name != "." && name != ".." && '/' !in name }

  function Root(path: string): string { if path != "" && path[0] == '/' then "/" else "." }

  // `file_browser_copy_destination_invalid`
  predicate CopyRefused(source: string, destination: string, directory: bool) {
    if SamePath(source, Root(source)) then true
    else if SamePath(source, destination) then true
    else if !directory then false
    else if Parts(source).None? then true
    else if Parts(destination).None? then true
    else Parts(source).value <= Parts(destination).value
  }

  // ----- splitting

  lemma {:induction false} SplitConcat(a: string, b: string)
    ensures Split(a + "/" + b) == Split(a) + Split(b)
    decreases |a|
  {
    var s := a + "/" + b;
    assert s[|a|] == '/';
    if '/' in a {
      CutConcat(a, "/" + b);
      assert a + ("/" + b) == s;
      assert After(a, '/') + ("/" + b) == After(a, '/') + "/" + b;
      SplitConcat(After(a, '/'), b);
    } else {
      CutAt(a, '/', b);
    }
  }

  // The first separator is found in the first part that has one.
  lemma {:induction false} CutConcat(a: string, b: string)
    requires '/' in a
    ensures Before(a + b, '/') == Before(a, '/') && After(a + b, '/') == After(a, '/') + b
  {
    assert (a + b)[1..] == a[1..] + b;
    if a[0] != '/' { CutConcat(a[1..], b); }
  }

  lemma {:induction false} SplitJoinAll(parts: seq<string>)
    requires parts != [] && forall p | p in parts :: '/' !in p
    ensures Split(JoinAll(parts)) == parts
  {
    if |parts| > 1 {
      SplitJoinAll(parts[1..]);
      SplitConcat(parts[0], JoinAll(parts[1..]));
    }
  }

  predicate NulFree(parts: seq<string>) { forall p | p in parts :: NUL !in p }

  lemma {:induction false} SplitPieces(s: string)
    ensures forall p | p in Split(s) :: '/' !in p && forall c | c in p :: c in s
    decreases |s|
  {
    if '/' in s {
      CutMembers(s);
      SplitPieces(After(s, '/'));
    }
  }

  lemma {:induction false} CutMembers(s: string)
    ensures '/' !in Before(s, '/')
    ensures forall c | c in Before(s, '/') || c in After(s, '/') :: c in s
  {
    if s != "" && s[0] != '/' { CutMembers(s[1..]); }
  }

  // ----- walking

  lemma {:induction false} WalkConcat(parts: seq<string>, a: seq<string>, b: seq<string>)
    ensures Walk(parts, a + b) == Walk(Walk(parts, a), b)
    decreases |a|
  {
    if a == [] {
      assert a + b == b;
    } else {
      assert (a + b)[1..] == a[1..] + b;
      WalkConcat(Apply(parts, a[0]), a[1..], b);
    }
  }

  predicate Normal(parts: seq<string>) { forall p | p in parts :: ChildName(p) && NUL !in p }

  lemma {:induction false} WalkIsNormal(parts: seq<string>, pieces: seq<string>)
    requires Normal(parts) && forall p | p in pieces :: '/' !in p && NUL !in p
    ensures Normal(Walk(parts, pieces))
    decreases |pieces|
  {
    if pieces != [] { WalkIsNormal(Apply(parts, pieces[0]), pieces[1..]); }
  }

  lemma {:induction false} WalkKeepsNormal(parts: seq<string>, pieces: seq<string>)
    requires Normal(pieces)
    ensures Walk(parts, pieces) == parts + pieces
    decreases |pieces|
  {
    if pieces == [] {
      assert parts + pieces == parts;
    } else {
      assert pieces[0] in pieces;
      WalkKeepsNormal(parts + [pieces[0]], pieces[1..]);
      assert parts + [pieces[0]] + pieces[1..] == parts + pieces;
    }
  }

  // The parts of a path are proper names.
  lemma PartsAreNormal(path: string)
    requires Absolute(path)
    ensures Normal(Parts(path).value)
  {
    SplitPieces(path);
    WalkIsNormal([], Split(path));
  }

  // ----- identity

  lemma {:induction false} JoinAllNulFree(parts: seq<string>)
    requires NulFree(parts)
    ensures NUL !in JoinAll(parts)
  {
    if |parts| > 1 { JoinAllNulFree(parts[1..]); }
  }

  // A normal form reads back as itself.
  lemma RenderRoundTrip(parts: seq<string>)
    requires Normal(parts) && parts != []
    ensures Parts("/" + JoinAll(parts)) == Some(parts)
  {
    var path := "/" + JoinAll(parts);
    JoinAllNulFree(parts);
    assert path == "" + "/" + JoinAll(parts);
    SplitConcat("", JoinAll(parts));
    SplitJoinAll(parts);
    WalkConcat([], [""], parts);
    assert Split("") == [""] && Walk([], [""]) == [];
    WalkKeepsNormal([], parts);
    assert [] + parts == parts;
  }

  lemma RootParts()
    ensures Parts("/") == Some([])
  {
    var path := "" + "/" + "";
    assert path == "/";
    SplitConcat("", "");
    assert Split(path) == ["", ""];
    WalkConcat([], [""], [""]);
  }

  lemma PartsOfIdentity(path: string)
    ensures Parts(Identity(path)) == Parts(path)
  {
    if Absolute(path) {
      PartsAreNormal(path);
      if Parts(path).value == [] { RootParts(); } else { RenderRoundTrip(Parts(path).value); }
    }
  }

  lemma IdentityIdempotent(path: string)
    ensures Identity(Identity(path)) == Identity(path)
  {
    PartsOfIdentity(path);
  }

  lemma IdentityIffSameParts(a: string, b: string)
    requires Absolute(a) && Absolute(b)
    ensures SamePath(a, b) <==> Parts(a) == Parts(b)
  {
    PartsOfIdentity(a);
    PartsOfIdentity(b);
  }

  // ----- join, name, parent

  lemma {:induction false} TrimKeepsParts(path: string)
    ensures Walk([], Split(TrimEndOf(path, Slash))) == Walk([], Split(path))
    decreases |path|
  {
    if path != "" && path[|path| - 1] == '/' {
      var front := path[..|path| - 1];
      assert path == front + "/" + "";
      SplitConcat(front, "");
      WalkConcat([], Split(front), [""]);
      TrimKeepsParts(front);
    }
  }

  lemma JoinForm(parent: string, child: string)
    requires Absolute(parent)
    ensures Join(parent, child) == TrimEndOf(parent, Slash) + "/" + child
  {
    TrimEndSpec(parent, Slash);
    assert TrimEndOf(parent, Slash) == "" ==> "" + "/" + child == "/" + child;
  }

  // Joining a child appends exactly that part.
  lemma JoinAppends(parent: string, child: string)
    requires Absolute(parent) && ChildName(child) && NUL !in child
    ensures Absolute(Join(parent, child))
    ensures Parts(Join(parent, child)) == Some(Parts(parent).value + [child])
  {
    var trimmed := TrimEndOf(parent, Slash);
    TrimEndSpec(parent, Slash);
    JoinForm(parent, child);
    TrimKeepsParts(parent);
    SplitConcat(trimmed, child);
    WalkConcat([], Split(trimmed), [child]);
    assert Split(child) == [child];
    var joined := trimmed + "/" + child;
    assert joined[0] == '/';
    assert forall c | c in joined :: c in trimmed || c == '/' || c in child;
  }

  lemma JoinIsTrimmed(parent: string, child: string)
    requires Absolute(parent) && ChildName(child)
    ensures TrimEndOf(Join(parent, child), Slash) == Join(parent, child)
  {
    JoinForm(parent, child);
    var joined := Join(parent, child);
    assert joined[|joined| - 1] == child[|child| - 1];
  }

  lemma {:induction false} LastSlashAt(a: string, b: string)
    requires '/' !in b
    ensures LastSlash(a + "/" + b) == Some(|a|)
    decreases |b|
  {
    var s := a + "/" + b;
    if b == "" {
      assert s[|s| - 1] == '/';
    } else {
      assert s[|s| - 1] == b[|b| - 1];
      assert s[..|s| - 1] == a + "/" + b[..|b| - 1];
      LastSlashAt(a, b[..|b| - 1]);
    }
  }

  // `name` and `parent` undo `join`.
  lemma NameParentUndoJoin(parent: string, child: string)
    requires Absolute(parent) && ChildName(child) && NUL !in child
    ensures Name(Join(parent, child)) == child
    ensures Absolute(Parent(Join(parent, child))) && SamePath(Parent(Join(parent, child)), parent)
  {
    var trimmed := TrimEndOf(parent, Slash);
    TrimEndSpec(parent, Slash);
    JoinForm(parent, child);
    JoinIsTrimmed(parent, child);
    SplitConcat(trimmed, child);
    LastSlashAt(trimmed, child);
    assert (trimmed + "/" + child)[..|trimmed|] == trimmed;
    TrimKeepsParts(parent);
    if trimmed == "" {
      TrimKeepsParts("/");
      assert TrimEndOf("/", Slash) == "";
    }
  }

  lemma {:induction false} LastSlashSplits(s: string)
    requires '/' in s
    ensures var k := LastSlash(s); k.Some? && s[k.value] == '/' && '/' !in s[k.value + 1..]
  {
    if s[|s| - 1] != '/' {
      var front := s[..|s| - 1];
      assert s == front + [s[|s| - 1]];
      LastSlashSplits(front);
      var k := LastSlash(front).value;
      assert s[k + 1..] == front[k + 1..] + [s[|s| - 1]];
    }
  }

  // The last component of a path that is not the root, and what stands before it.
  lemma LastComponent(path: string) returns (head: string)
    requires Absolute(path) && Name(path) != ""
    ensures TrimEndOf(path, Slash) == head + "/" + Name(path)
    ensures Parent(path) == if head == "" then "/" else head
    ensures Walk([], Split(path)) == Apply(Walk([], Split(head)), Name(path))
  {
    var trimmed := TrimEndOf(path, Slash);
    TrimEndSpec(path, Slash);
    assert trimmed != "";
    LastSlashSplits(trimmed);
    var k := LastSlash(trimmed).value;
    head := trimmed[..k];
    var name := trimmed[k + 1..];
    assert trimmed == head + "/" + name;
    SplitConcat(head, name);
    WalkConcat([], Split(head), [name]);
    TrimKeepsParts(path);
  }

  lemma ParentIsAbsolute(path: string)
    requires Absolute(path) && Name(path) != ""
    ensures Absolute(Parent(path)) && NUL !in Name(path)
  {
    var head := LastComponent(path);
    var trimmed := TrimEndOf(path, Slash);
    TrimEndSpec(path, Slash);
    assert forall c | c in trimmed :: c in path;
    assert forall c | c in head || c in Name(path) :: c in trimmed;
    if head != "" { assert head[0] == trimmed[0]; }
  }

  // A bare name stands in the current directory, which joining does not spell out.
  lemma BareNames(name: string, parent: string)
    requires name != "" && '/' !in name
    ensures Parent(name) == "." && Name(name) == name && Join(Parent(name), Name(name)) == name
    ensures parent == "" || parent == "." || parent == "./" ==> Join(parent, name) == name
  {
    assert name[|name| - 1] in name;
    NoSlash(name);
    assert "./"[..1] == "." && !Slash("."[0]);
    assert TrimEndOf("./", Slash) == TrimEndOf(".", Slash) == ".";
  }

  lemma {:induction false} NoSlash(s: string)
    requires '/' !in s
    ensures LastSlash(s) == None
  {
    if s != "" {
      assert s[|s| - 1] in s;
      NoSlash(s[..|s| - 1]);
    }
  }

  // Conversely, a path is its parent joined with its name, when the name is a proper one.
  lemma JoinUndoesParentName(path: string)
    requires Absolute(path) && ChildName(Name(path))
    ensures Absolute(Parent(path)) && NUL !in Name(path)
    ensures SamePath(Join(Parent(path), Name(path)), path)
  {
    var head := LastComponent(path);
    ParentIsAbsolute(path);
    if head == "" {
      RootParts();
      assert Walk([], Split("")) == [];
    }
    JoinAppends(Parent(path), Name(path));
    IdentityIffSameParts(Join(Parent(path), Name(path)), path);
  }

  // ----- what one more component does

  lemma ComponentAppends(path: string, piece: string)
    requires Absolute(path) && '/' !in piece && NUL !in piece
    ensures Absolute(path + "/" + piece)
    ensures Parts(path + "/" + piece) == Some(Apply(Parts(path).value, piece))
  {
    var longer := path + "/" + piece;
    assert longer[0] == '/' && forall c | c in longer :: c in path || c == '/' || c in piece;
    SplitConcat(path, piece);
    WalkConcat([], Split(path), [piece]);
  }

  // `..` leads to the parent and stays at the root; `.` and a repeated or trailing slash change nothing;
  // a proper name goes down, and `..` after it comes back.
  lemma DotsAreResolved(path: string, name: string)
    requires Absolute(path) && ChildName(name) && NUL !in name
    ensures Parts(path + "/..") == Some(if Parts(path).value == [] then []
                                        else Parts(path).value[..|Parts(path).value| - 1])
    ensures SamePath(path + "/.", path) && SamePath(path + "/", path)
    ensures Parts(path + "/" + name) == Some(Parts(path).value + [name])
    ensures SamePath(path + "/" + name + "/..", path)
  {
    ComponentAppends(path, "..");
    ComponentAppends(path, ".");
    ComponentAppends(path, "");
    ComponentAppends(path, name);
    ComponentAppends(path + "/" + name, "..");
    assert path + "/" + ".." == path + "/.." && path + "/" + "." == path + "/." && path + "/" + "" == path + "/";
    assert path + "/" + name + "/" + ".." == path + "/" + name + "/..";
    assert (Parts(path).value + [name])[..|Parts(path).value|] == Parts(path).value;
  }

  // ----- copies

  lemma RenderedIsAbsolute(path: string)
    requires Absolute(path)
    ensures Absolute(Identity(path))
  {
    PartsOfIdentity(path);
  }

  // A directory copy is refused exactly when one of the paths has no normal form, or the destination
  // is the source or lies inside it, however the two are spelled.
  lemma DirectoryCopyRefusedIff(source: string, destination: string)
    ensures CopyRefused(source, destination, true)
            <==> !Absolute(source) || !Absolute(destination) || Parts(source).value <= Parts(destination).value
  {
    if Absolute(source) && Absolute(destination) {
      RootParts();
      IdentityIffSameParts(source, "/");
      IdentityIffSameParts(source, destination);
    }
  }

  // A file copy is refused exactly when the source is the root or is the destination: by its parts
  // if it has a normal form, letter for letter if it has none.
  lemma FileCopyRefusedIff(source: string, destination: string)
    ensures CopyRefused(source, destination, false)
            <==> if Absolute(source) then Parts(source).value == [] || Parts(source) == Parts(destination)
                 else source == "." || source == destination
  {
    RootParts();
    PartsOfIdentity(source);
    PartsOfIdentity(destination);
    PartsOfIdentity("/");
    if Absolute(source) { RenderedIsAbsolute(source); }
    if Absolute(destination) { RenderedIsAbsolute(destination); }
    assert Identity("/") == "/" && Identity(".") == ".";
  }
}
