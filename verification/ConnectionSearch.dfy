/** Searching saved connections: a group whose name matches includes its whole subtree,
    also in catalogs whose parent links form cycles. */
module ConnectionSearch {
  import opened Common
  import opened Text

  type Id = string

  datatype Group = Group(id: Id, parent: Option<Id>, name: string)

  // `normalize_connection_search_query`
  function Normalized(query: string): string { Lowercase(Trim(query)) }

  predicate Hit(g: Group, query: string) { Contains(Lowercase(g.name), query) }

  // ----- what matches

  predicate Blank(s: string) { forall i | 0 <= i < |s| :: Whitespace(s[i]) }

  // The same letter, or the same ASCII letter in the other case.
  predicate SameLetter(c: char, d: char) {
    c == d || ('A' <= c <= 'Z' && d as int == c as int + 32) || ('A' <= d <= 'Z' && c as int == d as int + 32)
  }

  predicate SameLetters(s: string, t: string) { |s| == |t| && forall i | 0 <= i < |s| :: SameLetter(s[i], t[i]) }

  predicate OccursAt(word: string, name: string, i: int) {
    0 <= i <= |name| - |word| && SameLetters(name[i..i + |word|], word)
  }

  lemma LowercaseIff(s: string, t: string)
    ensures Lowercase(s) == Lowercase(t) <==> SameLetters(s, t)
  {
    if Lowercase(s) == Lowercase(t) {
      forall i | 0 <= i < |s| ensures SameLetter(s[i], t[i]) {
        assert Lowercase(s)[i] == AsciiLower(s[i]) && Lowercase(t)[i] == AsciiLower(t[i]);
      }
    }
  }

  lemma BlankIsEmpty(query: string)
    requires Blank(query)
    ensures Normalized(query) == ""
  {
    TrimsStart(query, "", Whitespace);
    assert query + "" == query;
  }

  // A query matches a name exactly when, without the blanks around it, it occurs there up to the case
  // of ASCII letters.
  lemma HitExactly(g: Group, left: string, word: string, right: string)
    requires Blank(left) && Blank(right) && word != "" && !Whitespace(word[0]) && !Whitespace(word[|word| - 1])
    ensures Normalized(left + word + right) != ""
    ensures Hit(g, Normalized(left + word + right))
            <==> exists i :: OccursAt(word, g.name, i)
  {
    var query, name := Lowercase(word), Lowercase(g.name);
    assert left + word + right == left + (word + right);
    TrimsStart(left, word + right, Whitespace);
    TrimsEnd(word, right, Whitespace);
    assert Normalized(left + word + right) == query;
    if Hit(g, query) {
      var i :| 0 <= i <= |name| && query <= name[i..];
      OccursIff(word, g.name, i);
    }
    if i :| OccursAt(word, g.name, i) { OccursIff(word, g.name, i); }
  }

  lemma OccursIff(word: string, name: string, i: nat)
    requires i <= |name|
    ensures OccursAt(word, name, i) <==> Lowercase(word) <= Lowercase(name)[i..]
  {
    if i <= |name| - |word| {
      LowercaseIff(name[i..i + |word|], word);
      assert Lowercase(name)[i..][..|word|] == Lowercase(name[i..i + |word|]);
    }
  }

  // ----- subtrees

  // `id` lies at most `n` parent links below a group that matches.
  ghost predicate Below(groups: seq<Group>, query: string, id: Id, n: nat)
    decreases n
  {
    exists g | g in groups ::
      g.id == id && (Hit(g, query) || (n > 0 && g.parent.Some? && Below(groups, query, g.parent.value, n - 1)))
  }

  ghost predicate InSubtree(groups: seq<Group>, query: string, id: Id) {
    exists n: nat :: Below(groups, query, id, n)
  }

  type Children = map<Id, seq<Id>>

  function Kids(children: Children, id: Id): seq<Id> { if id in children then children[id] else [] }

  ghost predicate Child(groups: seq<Group>, parent: Id, id: Id) {
    exists g | g in groups :: g.id == id && g.parent == Some(parent)
  }

  ghost predicate HitId(groups: seq<Group>, query: string, id: Id) {
    exists g | g in groups :: g.id == id && Hit(g, query)
  }

  ghost predicate Indexed(groups: seq<Group>, query: string, children: Children, pending: seq<Id>) {
    && (forall p, c :: c in Kids(children, p) <==> Child(groups, p, c))
    && (forall x :: x in pending <==> HitId(groups, query, x))
  }

  lemma IndexOne(groups: seq<Group>, g: Group, query: string)
    ensures forall p, c :: Child(groups + [g], p, c) <==> Child(groups, p, c) || (g.id == c && g.parent == Some(p))
    ensures forall x :: HitId(groups + [g], query, x) <==> HitId(groups, query, x) || (g.id == x && Hit(g, query))
  {
    var all := groups + [g];
    assert g in all && forall h | h in groups :: h in all;
    forall p, c | Child(groups, p, c) ensures Child(all, p, c) {
      var h :| h in groups && h.id == c && h.parent == Some(p);
      assert h in all;
    }
    forall x | HitId(groups, query, x) ensures HitId(all, query, x) {
      var h :| h in groups && h.id == x && Hit(h, query);
      assert h in all;
    }
  }

  // One pass over the catalog: who is below whom, and which names match.
  method Index(groups: seq<Group>, query: string) returns (children: Children, pending: seq<Id>)
    ensures Indexed(groups, query, children, pending)
  {
    children, pending := map[], [];
    for i := 0 to |groups|
      invariant Indexed(groups[..i], query, children, pending)
    {
      var g := groups[i];
      IndexOne(groups[..i], g, query);
      assert groups[..i + 1] == groups[..i] + [g];
      if g.parent.Some? {
        children := children[g.parent.value := Kids(children, g.parent.value) + [g.id]];
      }
      if Hit(g, query) {
        pending := pending + [g.id];
      }
    }
    assert groups[..|groups|] == groups;
  }

  function Ids(groups: seq<Group>): set<Id> { set g | g in groups :: g.id }

  // What has been visited and what is still to be visited.
  ghost predicate Visiting(groups: seq<Group>, query: string, included: set<Id>, pending: seq<Id>) {
    && (forall x | x in included || x in pending :: InSubtree(groups, query, x) && x in Ids(groups))
    && (forall x | HitId(groups, query, x) :: x in included || x in pending)
    && (forall x, c | x in included && Child(groups, x, c) :: c in included || c in pending)
  }

  lemma HitsAreBelow(groups: seq<Group>, query: string, id: Id)
    requires HitId(groups, query, id)
    ensures InSubtree(groups, query, id) && id in Ids(groups)
  {
    assert Below(groups, query, id, 0);
  }

  lemma ChildrenAreBelow(groups: seq<Group>, query: string, parent: Id, id: Id)
    requires InSubtree(groups, query, parent) && Child(groups, parent, id)
    ensures InSubtree(groups, query, id) && id in Ids(groups)
  {
    var n: nat :| Below(groups, query, parent, n);
    assert Below(groups, query, id, n + 1);
  }

  // A set that holds the hits and is closed downwards holds every subtree of a hit.
  lemma {:induction false} ClosedHoldsSubtrees(groups: seq<Group>, query: string, included: set<Id>, id: Id, n: nat)
    requires Visiting(groups, query, included, []) && Below(groups, query, id, n)
    ensures id in included
    decreases n
  {
    var g :| g in groups && g.id == id
             && (Hit(g, query) || (n > 0 && g.parent.Some? && Below(groups, query, g.parent.value, n - 1)));
    if Hit(g, query) {
      assert HitId(groups, query, id);
    } else {
      ClosedHoldsSubtrees(groups, query, included, g.parent.value, n - 1);
      assert Child(groups, g.parent.value, id);
    }
  }

  lemma VisitAgain(groups: seq<Group>, query: string, included: set<Id>, pending: seq<Id>, id: Id)
    requires Visiting(groups, query, included, pending + [id]) && id in included
    ensures Visiting(groups, query, included, pending)
  {
    assert forall x | x in pending :: x in pending + [id];
    assert forall x | x in pending + [id] :: x in pending || x == id;
  }

  lemma VisitFirst(groups: seq<Group>, query: string, included: set<Id>, pending: seq<Id>, id: Id, kids: seq<Id>)
    requires Visiting(groups, query, included, pending + [id])
    requires forall c :: c in kids <==> Child(groups, id, c)
    ensures id in Ids(groups) && Visiting(groups, query, included + {id}, pending + kids)
  {
    assert id in pending + [id];
    assert forall x | x in pending :: x in pending + [id];
    assert forall x | x in pending + [id] :: x in pending || x == id;
    forall c | c in kids ensures InSubtree(groups, query, c) && c in Ids(groups) {
      ChildrenAreBelow(groups, query, id, c);
    }
  }

  // `ConnectionSearch::new`
  method Search(query: string, groups: seq<Group>) returns (included: set<Id>)
    ensures Normalized(query) == "" ==> included == {}
    ensures Normalized(query) != "" ==> forall x :: x in included <==> InSubtree(groups, Normalized(query), x)
  {
    included := {};
    var needle := Normalized(query);
    if needle == "" {
      return;
    }
    var children, pending := Index(groups, needle);
    forall x | x in pending ensures InSubtree(groups, needle, x) && x in Ids(groups) {
      HitsAreBelow(groups, needle, x);
    }
    while pending != []
      invariant Visiting(groups, needle, included, pending)
      invariant forall p, c :: c in Kids(children, p) <==> Child(groups, p, c)
      decreases Ids(groups) - included, |pending|
    {
      var id := pending[|pending| - 1];
      var rest := pending[..|pending| - 1];
      assert pending == rest + [id];
      if id in included {
        VisitAgain(groups, needle, included, rest, id);
        pending := rest;
      } else {
        VisitFirst(groups, needle, included, rest, id, Kids(children, id));
        included := included + {id};
        pending := rest + Kids(children, id);
      }
    }
    forall x | InSubtree(groups, needle, x) ensures x in included {
      var n: nat :| Below(groups, needle, x, n);
      ClosedHoldsSubtrees(groups, needle, included, x, n);
    }
  }
}
