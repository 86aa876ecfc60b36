/** `copyDrive` of `driveCore.ts`. The copy is inserted beside the existing nodes, and the target is not told of it;
    what it looks like depends on the deleted children the original's lists still hold and on the file records found. */
module DriveCopy {
  import opened Sequences
  import opened Drive
  import opened DriveHistory
  import opened DriveCore

  /** A child that was not copied is undefined in the list. */
  datatype CopyNode = CopyNode(id: Id, managerId: string, path: seq<Id>, name: string, description: string,
                               fileId: Option<string>, kind: Kind, parent: Id, children: seq<Option<Id>>)

  /** What a child that was not copied is in the stored list: null, no node's id. */
  const NO_ID: Id := ""

  ghost predicate Copyable(s: Drives) { Walkable(s) && NO_ID !in s }

  /** No node has or mentions the id. */
  ghost predicate Unused(s: Drives, y: Id) {
    && y != NO_ID && y !in s
    && forall x | x in s :: y !in s[x].path && y !in s[x].children && s[x].parent != Some(y)
  }

  /** The read-only part of a copy: the collection, what is copied where, and the ids drawn for it. */
  datatype Copying = Copying(s: Drives, id: Id, target: Id, requester: User, idMap: map<Id, Id>,
                             files: set<string>, newUri: Id -> string)
  {
    function MapChild(): Id -> Option<Id> { (c: Id) => if c in idMap then Some(idMap[c]) else None }

    predicate MapsPath(x: Id) {
      x in s && id in s[x].path && forall y | y in s[x].path[IndexOf(s[x].path, id)..] :: y in idMap
    }

    function NewPath(x: Id): seq<Id>
      requires target in s && MapsPath(x)
    {
      s[target].path + MapIds(idMap, s[x].path[IndexOf(s[x].path, id)..])
    }

    /** The copy of a node; none where the record of its file is missing. */
    function CopyOf(x: Id): Option<CopyNode>
      requires target in s && MapsPath(x) && x in idMap
    {
      if s[x].parent == None then None
      else if s[x].fileId.Some? && s[x].fileId.value !in files then None
      else
        Some(CopyNode(idMap[x], requester.id, NewPath(x), s[x].name, s[x].description,
                      if s[x].fileId.Some? then Some(newUri(x)) else None, s[x].kind,
                      if s[x].parent.value in idMap then idMap[s[x].parent.value] else target,
                      seq(|s[x].children|, i requires 0 <= i < |s[x].children| => MapChild()(s[x].children[i]))))
    }

    /** The walk found these nodes, and each has its own new id. */
    ghost predicate Ready() {
      && Copyable(s) && Live(s, id) && s[id].parent.Some? && Live(s, target)
      && (forall x :: x in idMap <==> x in Subtree(s, id))
      && OneIdEach()
      && (forall x | x in idMap :: Unused(s, idMap[x]))
    }

    ghost predicate OneIdEach() {
      forall x, y | x in idMap && y in idMap :: idMap[x] == idMap[y] ==> x == y
    }
  }

  function MapIds(m: map<Id, Id>, ids: seq<Id>): (r: seq<Id>)
    requires forall x | x in ids :: x in m
    ensures |r| == |ids| && forall i | 0 <= i < |ids| :: r[i] == m[ids[i]]
  {
    seq(|ids|, i requires 0 <= i < |ids| => assert ids[i] in ids; m[ids[i]])
  }

  lemma MapIdsPush(m: map<Id, Id>, front: seq<Id>, x: Id)
    requires x in m && forall y | y in front :: y in m
    ensures forall y | y in front + [x] :: y in m
    ensures MapIds(m, front + [x]) == MapIds(m, front) + [m[x]]
  {
  }

  // ----- the nodes found ----------------------------------------------------

  lemma {:induction false} SubtreeIsClosed(s: Drives, id: Id, x: Id, y: Id)
    requires Walkable(s) && Live(s, id) && x in Subtree(s, id) && Live(s, x) && y in Subtree(s, x)
    ensures y in Subtree(s, id)
    decreases Room(s, id)
  {
    if x != id {
      var c := BelowIsBelow(s, id, s[id].children, x);
      SubtreeIsClosed(s, c, x, y);
      ListedPath(s, id, c);
      BelowHasChild(s, id, s[id].children, c, y);
    }
  }

  lemma ListedIsFound(s: Drives, id: Id, c: Id)
    requires Walkable(s) && Live(s, id) && c in s[id].children && Live(s, c)
    ensures c in Subtree(s, id)
  {
    ListedPath(s, id, c);
    BelowHasChild(s, id, s[id].children, c, c);
  }

  lemma {:induction false} FoundParent(s: Drives, id: Id, x: Id)
    requires Walkable(s) && Live(s, id) && x in Subtree(s, id) && x != id
    ensures Live(s, x) && s[x].parent.Some? && s[x].parent.value in Subtree(s, id)
    ensures Live(s, s[x].parent.value) && s[x].path == s[s[x].parent.value].path + [x]
    decreases Room(s, id)
  {
    var c := BelowIsBelow(s, id, s[id].children, x);
    ListedPath(s, id, c);
    if x != c {
      FoundParent(s, c, x);
      BelowHasChild(s, id, s[id].children, c, s[x].parent.value);
    }
  }

  /** From the node on, the path leads through nodes found. */
  lemma {:induction false} PathWithin(s: Drives, id: Id, x: Id, j: nat)
    requires Walkable(s) && Live(s, id) && x in Subtree(s, id) && Live(s, x)
    requires |s[id].path| - 1 <= j < |s[x].path|
    ensures s[x].path[j] in Subtree(s, id)
    decreases |s[x].path|
  {
    assert PlaceOk(s, x);
    if j < |s[x].path| - 1 {
      FoundParent(s, id, x);
      PathWithin(s, id, s[x].parent.value, j);
    }
  }

  lemma IndexOnPath(s: Drives, id: Id, x: Id)
    requires Walkable(s) && Live(s, id) && x in Subtree(s, id)
    ensures Live(s, x) && id in s[x].path && IndexOf(s[x].path, id) == |s[id].path| - 1
  {
    SubtreeOnPath(s, id, x);
    SubtreeIsBelow(s, id, x);
    assert PlaceOk(s, x) && PlaceOk(s, id);
    assert s[x].path[..|s[id].path|][|s[id].path| - 1] == id;
  }

  lemma TopHasNoParent(s: Drives, id: Id)
    requires Walkable(s) && Live(s, id) && s[id].parent.Some?
    ensures s[id].parent.value !in Subtree(s, id)
  {
    assert PlaceOk(s, id);
    if s[id].parent.value in Subtree(s, id) { SubtreeIsBelow(s, id, s[id].parent.value); }
  }

  lemma MapsEveryPath(c: Copying, x: Id)
    requires c.Ready() && x in c.idMap
    ensures c.MapsPath(x) && Live(c.s, x) && c.s[x].parent.Some?
    ensures c.s[x].parent.value in c.idMap <==> x != c.id
  {
    IndexOnPath(c.s, c.id, x);
    if x != c.id { FoundParent(c.s, c.id, x); } else { TopHasNoParent(c.s, c.id); }
    TailIsFound(c.s, c.id, x);
    hide Walkable, Subtree, Unused, Copying.OneIdEach;
  }

  lemma TailIsFound(s: Drives, id: Id, x: Id)
    requires Walkable(s) && Live(s, id) && x in Subtree(s, id) && Live(s, x) && id in s[x].path
    ensures forall y | y in s[x].path[IndexOf(s[x].path, id)..] :: y in Subtree(s, id)
  {
    IndexOnPath(s, id, x);
    hide Walkable, Subtree;
    var path := s[x].path;
    var k := IndexOf(path, id);
    forall y | y in path[k..] ensures y in Subtree(s, id) {
      var i :| 0 <= i < |path[k..]| && path[k..][i] == y;
      PathWithin(s, id, x, k + i);
    }
  }

  /** The copied top node's path is the target's path and its own id. */
  lemma CopiedTopPath(c: Copying)
    requires c.Ready() && c.id in c.idMap && c.MapsPath(c.id)
    ensures c.NewPath(c.id) == c.s[c.target].path + [c.idMap[c.id]]
  {
    assert PlaceOk(c.s, c.id);
    IndexOnPath(c.s, c.id, c.id);
    hide Walkable, Subtree, Copying.Ready, Copying.OneIdEach, IndexOf, MapIds;
    assert c.s[c.id].path[|c.s[c.id].path| - 1..] == [c.id];
    assert MapIds(c.idMap, [c.id]) == [c.idMap[c.id]];
  }

  lemma NewPathPush(c: Copying, x: Id, p: Id)
    requires c.target in c.s && c.MapsPath(x) && c.MapsPath(p) && x in c.idMap && c.s[x].path == c.s[p].path + [x]
    ensures c.NewPath(x) == c.NewPath(p) + [c.idMap[x]]
  {
    PushedIndex(c.s[x].path, c.s[p].path, x, c.id);
    MapIdsPush(c.idMap, c.s[p].path[IndexOf(c.s[p].path, c.id)..], x);
    hide IndexOf, MapIds;
  }

  /** The other copies' paths are their copied parent's path and their own id. */
  lemma CopiedPath(c: Copying, x: Id)
    requires c.Ready() && x in c.idMap && x != c.id && c.MapsPath(x)
    ensures c.s[x].parent.Some? && c.s[x].parent.value in c.idMap && c.MapsPath(c.s[x].parent.value)
    ensures c.NewPath(x) == c.NewPath(c.s[x].parent.value) + [c.idMap[x]]
  {
    FoundParent(c.s, c.id, x);
    assert c.target in c.s;
    hide *;
    MapsEveryPath(c, x);
    MapsEveryPath(c, c.s[x].parent.value);
    NewPathPush(c, x, c.s[x].parent.value);
  }

  lemma PushedIndex(path: seq<Id>, above: seq<Id>, x: Id, id: Id)
    requires path == above + [x] && id in above
    ensures IndexOf(path, id) == IndexOf(above, id)
    ensures path[IndexOf(path, id)..] == above[IndexOf(above, id)..] + [x]
  {
    var k, j := IndexOf(path, id), IndexOf(above, id);
    assert path[j] == id && (k < |above| ==> above[k] == id);
  }

  // ----- what the copy is ---------------------------------------------------

  ghost predicate HasCopy(c: Copying, copies: seq<CopyNode>, x: Id, n: CopyNode)
    requires x in c.idMap
  {
    n in copies && n.id == c.idMap[x]
  }

  /** The top node is below the target, the others below the copy of their parent. */
  ghost predicate Placed(c: Copying, copies: seq<CopyNode>, x: Id, n: CopyNode)
    requires x in c.idMap && x in c.s && c.s[x].parent.Some? && c.target in c.s
  {
    if x == c.id then n.parent == c.target && n.path == c.s[c.target].path + [n.id]
    else
      var p := c.s[x].parent.value;
      p in c.idMap && exists q :: HasCopy(c, copies, p, q) && n.parent == q.id && n.path == q.path + [n.id]
  }

  ghost predicate SameContent(c: Copying, x: Id, n: CopyNode)
    requires x in c.s
  {
    && n.name == c.s[x].name && n.kind == c.s[x].kind && n.description == c.s[x].description
    && n.fileId.Some? == c.s[x].fileId.Some? && n.managerId == c.requester.id
  }

  /** The copied children in the same order. */
  ghost predicate SameChildren(c: Copying, x: Id, n: CopyNode)
    requires x in c.s
  {
    && |n.children| == |c.s[x].children|
    && forall i | 0 <= i < |n.children| ::
         c.s[x].children[i] in c.idMap && n.children[i] == Some(c.idMap[c.s[x].children[i]])
  }

  ghost predicate Corresponds(c: Copying, copies: seq<CopyNode>, x: Id, n: CopyNode)
    requires x in c.idMap && x in c.s && c.s[x].parent.Some? && c.target in c.s
  {
    SameContent(c, x, n) && SameChildren(c, x, n) && Placed(c, copies, x, n)
  }

  ghost predicate HasCounterpart(c: Copying, copies: seq<CopyNode>, x: Id)
    requires x in c.idMap && c.target in c.s
  {
    x in c.s && c.s[x].parent.Some? && exists n :: HasCopy(c, copies, x, n) && Corresponds(c, copies, x, n)
  }

  /** The copies are a tree of the same shape, one for each node found. */
  ghost predicate Isomorphic(c: Copying, copies: seq<CopyNode>)
    requires c.Ready()
  {
    && (forall n | n in copies :: exists x :: x in c.idMap && n.id == c.idMap[x])
    && forall x | x in c.idMap :: HasCounterpart(c, copies, x)
  }

  /** Nothing the copy needs is missing. */
  predicate Complete(s: Drives, files: set<string>, x: Id) {
    && x in s && (s[x].fileId.Some? ==> s[x].fileId.value in files)
    && forall i | 0 <= i < |s[x].children| :: Live(s, s[x].children[i])
  }

  predicate AllComplete(c: Copying) { forall x | x in c.idMap :: Complete(c.s, c.files, x) }

  ghost predicate IsCopies(c: Copying, copies: seq<CopyNode>)
    requires c.Ready()
  {
    && (forall n | n in copies :: exists x :: x in c.idMap && c.MapsPath(x) && c.CopyOf(x) == Some(n))
    && forall x | x in c.idMap :: c.MapsPath(x) && (c.CopyOf(x).Some? ==> c.CopyOf(x).value in copies)
  }

  lemma ChildrenAreFound(c: Copying, x: Id, i: nat)
    requires c.Ready() && x in c.idMap && x in c.s && i < |c.s[x].children|
    ensures c.s[x].children[i] in c.idMap <==> Live(c.s, c.s[x].children[i])
    ensures c.s[x].children[i] in c.idMap ==> c.s[c.s[x].children[i]].parent == Some(x)
  {
    var s, id, y := c.s, c.id, c.s[x].children[i];
    SubtreeOnPath(s, id, x);
    if y in c.idMap { SubtreeOnPath(s, id, y); }
    if Live(s, y) {
      ListedIsFound(s, x, y);
      SubtreeIsClosed(s, id, x, y);
      ListedPath(s, x, y);
    }
  }

  lemma CompleteNodeIsCopied(c: Copying, x: Id)
    requires c.target in c.s && x in c.idMap && c.MapsPath(x) && c.s[x].parent.Some? && Complete(c.s, c.files, x)
    requires forall i | 0 <= i < |c.s[x].children| :: c.s[x].children[i] in c.idMap
    ensures c.CopyOf(x).Some? && c.CopyOf(x).value.id == c.idMap[x] && c.CopyOf(x).value.path == c.NewPath(x)
    ensures SameContent(c, x, c.CopyOf(x).value) && SameChildren(c, x, c.CopyOf(x).value)
  {
    var n := c.CopyOf(x).value;
    hide Copying.NewPath, Copying.MapsPath;
    assert forall i | 0 <= i < |n.children| :: n.children[i] == c.MapChild()(c.s[x].children[i]);
  }

  lemma AllChildrenMapped(c: Copying, x: Id)
    requires c.Ready() && x in c.idMap && Complete(c.s, c.files, x)
    ensures forall i | 0 <= i < |c.s[x].children| :: c.s[x].children[i] in c.idMap
  {
    hide Copying.Ready;
    forall i | 0 <= i < |c.s[x].children| ensures c.s[x].children[i] in c.idMap { ChildrenAreFound(c, x, i); }
  }

  lemma CompleteNodeIsPlaced(c: Copying, copies: seq<CopyNode>, x: Id)
    requires c.Ready() && IsCopies(c, copies) && x in c.idMap
    requires AllComplete(c)
    ensures x in c.s && c.s[x].parent.Some? && c.target in c.s && c.MapsPath(x) && c.CopyOf(x).Some?
    ensures Placed(c, copies, x, c.CopyOf(x).value)
  {
    MapsEveryPath(c, x);
    assert c.target in c.s && c.id in c.idMap;
    AllChildrenMapped(c, x);
    CompleteNodeIsCopied(c, x);
    if x == c.id {
      CopiedTopPath(c);
      hide Copying.Ready, IsCopies, Copying.MapsPath, Copying.NewPath, SameChildren;
    } else {
      CopiedPath(c, x);
      var p := c.s[x].parent.value;
      MapsEveryPath(c, p);
      AllChildrenMapped(c, p);
      CompleteNodeIsCopied(c, p);
      hide Copying.Ready, Copying.MapsPath, Copying.NewPath, SameChildren;
      assert HasCopy(c, copies, p, c.CopyOf(p).value);
    }
  }

  lemma CompleteNodeCorresponds(c: Copying, copies: seq<CopyNode>, x: Id)
    requires c.Ready() && IsCopies(c, copies) && x in c.idMap
    requires AllComplete(c)
    ensures HasCounterpart(c, copies, x)
  {
    CompleteNodeIsPlaced(c, copies, x);
    AllChildrenMapped(c, x);
    CompleteNodeIsCopied(c, x);
    var n := c.CopyOf(x).value;
    assert HasCopy(c, copies, x, n);
    hide Copying.Ready, Copying.MapsPath, Copying.CopyOf, Placed, SameChildren;
    hide SameContent, HasCopy, IsCopies, Complete;
    assert HasCopy(c, copies, x, n) && Corresponds(c, copies, x, n);
  }

  lemma CounterpartOf(c: Copying, copies: seq<CopyNode>, x: Id) returns (n: CopyNode)
    requires c.Ready() && x in c.idMap && Isomorphic(c, copies)
    ensures n in copies && n.id == c.idMap[x] && x in c.s && SameChildren(c, x, n)
  {
    assert c.target in c.s && HasCounterpart(c, copies, x);
    hide Isomorphic, SameChildren, Placed, Copying.Ready;
    n :| HasCopy(c, copies, x, n) && Corresponds(c, copies, x, n);
  }

  lemma IsomorphicIsComplete(c: Copying, copies: seq<CopyNode>, x: Id)
    requires c.Ready() && IsCopies(c, copies) && x in c.idMap && Isomorphic(c, copies)
    ensures Complete(c.s, c.files, x)
  {
    hide Walkable, Subtree, Isomorphic, IsCopies, Copying.CopyOf, Copying.MapsPath;
    var n := CounterpartOf(c, copies, x);
    var y := SourceOf(c, copies, n);
    CopyTells(c, y, n);
    assert y == x;
    forall i | 0 <= i < |c.s[x].children| ensures Live(c.s, c.s[x].children[i]) { ChildrenAreFound(c, x, i); }
  }

  lemma SourceOf(c: Copying, copies: seq<CopyNode>, n: CopyNode) returns (y: Id)
    requires c.Ready() && IsCopies(c, copies) && n in copies
    ensures c.target in c.s && y in c.idMap && c.MapsPath(y) && c.CopyOf(y) == Some(n)
  {
    assert c.target in c.s;
    hide Copying.Ready, Copying.CopyOf, Copying.MapsPath;
    y :| y in c.idMap && c.MapsPath(y) && c.CopyOf(y) == Some(n);
  }

  lemma CopyTells(c: Copying, y: Id, n: CopyNode)
    requires c.target in c.s && y in c.idMap && c.MapsPath(y) && c.CopyOf(y) == Some(n)
    ensures n.id == c.idMap[y]
    ensures c.s[y].fileId.Some? ==> c.s[y].fileId.value in c.files
  {
  }

  lemma CopiesHaveIds(c: Copying, copies: seq<CopyNode>)
    requires c.Ready() && IsCopies(c, copies)
    ensures forall n | n in copies :: exists x :: x in c.idMap && n.id == c.idMap[x]
  {
    hide Walkable, Subtree, Copying.OneIdEach, Copying.CopyOf, Copying.MapsPath;
    forall n | n in copies ensures exists x :: x in c.idMap && n.id == c.idMap[x] {
      var x := SourceOf(c, copies, n);
      CopyTells(c, x, n);
    }
  }

  lemma CompleteIsIsomorphic(c: Copying, copies: seq<CopyNode>)
    requires c.Ready() && IsCopies(c, copies) && AllComplete(c)
    ensures Isomorphic(c, copies)
  {
    CopiesHaveIds(c, copies);
    assert c.target in c.s;
    hide Copying.Ready, IsCopies, AllComplete, HasCounterpart;
    forall x | x in c.idMap ensures HasCounterpart(c, copies, x) {
      CompleteNodeCorresponds(c, copies, x);
    }
  }

  /** copyDrive makes an isomorphic subtree exactly when no node below the top lists a deleted child and
      every file record is found. */
  lemma CopyIsIsomorphicIff(c: Copying, copies: seq<CopyNode>)
    requires c.Ready() && IsCopies(c, copies)
    ensures Isomorphic(c, copies) <==> AllComplete(c)
  {
    hide Copying.Ready, IsCopies, Complete, Isomorphic;
    assert AllComplete(c) <==> forall x | x in c.idMap :: Complete(c.s, c.files, x);
    hide AllComplete;
    if Isomorphic(c, copies) {
      forall x | x in c.idMap ensures Complete(c.s, c.files, x) { IsomorphicIsComplete(c, copies, x); }
    }
    if AllComplete(c) { CompleteIsIsomorphic(c, copies); }
  }

  lemma ParentListsDeleted(s: Drives, requester: Option<User>, id: Id, time: int)
    requires Tree(s) && DeleteResult(s, requester, id, time).Ok? && s[id].parent.Some?
    ensures var t, p := DeleteResult(s, requester, id, time).value, s[id].parent.value;
      p in s && p in t && id in s[p].children && t[p].children == s[p].children && !Live(t, id)
  {
    DeleteMarksPath(s, requester, id, time);
    assert ParentOk(s, id) && PathOk(s, id);
    hide Walkable, Subtree, DeleteResult;
  }

  /** After any deletion, a copy that takes in the parent of the deleted node is not of the same shape. */
  lemma CopyAfterDeleteIsNot(s: Drives, requester: Option<User>, id: Id, time: int, c: Copying, copies: seq<CopyNode>)
    requires Tree(s) && DeleteResult(s, requester, id, time) == Ok(c.s)
    requires c.Ready() && IsCopies(c, copies) && s[id].parent.Some? && s[id].parent.value in c.idMap
    ensures !Isomorphic(c, copies)
  {
    ParentListsDeleted(s, requester, id, time);
    hide Tree, DeleteResult, Copying.Ready, IsCopies, Isomorphic;
    var p := s[id].parent.value;
    var i :| 0 <= i < |s[p].children| && s[p].children[i] == id;
    assert !Complete(c.s, c.files, p);
    CopyIsIsomorphicIff(c, copies);
  }

  lemma DeletedInside()
    ensures var s, t := After(NestedRun(false)), After(NestedRun(false) + [DeleteDrive(Owner(), "b", 1)]);
      && DeleteResult(s, Owner(), "b", 1) == Ok(t) && "b" in s && s["b"].parent == Some("a")
      && Live(t, "a") && Live(t, "r") && t["a"].path == ["r", "a"] && t["a"].parent == Some("r")
      && t["a"].managerId == "u" && t["r"].managerId == "u" && NO_ID !in t && Tree(t)
  {
    var s := After(NestedRun(false));
    Nested(false);
    hide NestedRun, Tree, Subtree;
    AfterPush(NestedRun(false), DeleteDrive(Owner(), "b", 1));
    DeleteMarksPath(s, Owner(), "b", 1);
  }

  /** Such a copy can be made: folder B is deleted from folder A, and A is copied into the root. */
  lemma CopyWithDeletedChild(newIds: nat -> Id, newUri: Id -> string, copies: seq<CopyNode>)
    requires FreshIds(After(NestedRun(false) + [DeleteDrive(Owner(), "b", 1)]), newIds)
    ensures var t := After(NestedRun(false) + [DeleteDrive(Owner(), "b", 1)]);
      && MayCopy(t, Owner().value, "a", "r")
      && var c := Copying(t, "a", "r", Owner().value, IdMap(Subtree(t, "a"), newIds), {}, newUri);
         c.Ready() && (IsCopies(c, copies) ==> !Isomorphic(c, copies))
  {
    var s, t := After(NestedRun(false)), After(NestedRun(false) + [DeleteDrive(Owner(), "b", 1)]);
    DeletedInside();
    hide Tree, DeleteResult, NestedRun, After, Subtree, IdMap, Copying.Ready, IsCopies, Isomorphic;
    var c := Copying(t, "a", "r", Owner().value, IdMap(Subtree(t, "a"), newIds), {}, newUri);
    CopyingIsReady(c, newIds);
    WalkAgreesWithPath(t, "a", "a");
    if IsCopies(c, copies) { CopyAfterDeleteIsNot(s, Owner(), "b", 1, c, copies); }
  }

  // ----- the collection with the copy in it ---------------------------------

  function Stored(n: CopyNode): Node {
    Node(n.managerId, n.path, false, n.name, n.description, n.fileId, n.kind, Some(n.parent),
         seq(|n.children|, i requires 0 <= i < |n.children| =>
               match n.children[i] case Some(child) => child case None => NO_ID), [], None)
  }

  function Inserted(s: Drives, copies: seq<CopyNode>): Drives {
    if copies == [] then s
    else Inserted(s, copies[..|copies| - 1])[copies[|copies| - 1].id := Stored(copies[|copies| - 1])]
  }

  lemma {:induction false} InsertedAt(s: Drives, copies: seq<CopyNode>, y: Id)
    ensures y in Inserted(s, copies) ==> y in s || exists n :: n in copies && n.id == y
    ensures (forall n | n in copies :: n.id != y) ==>
              (y in Inserted(s, copies) <==> y in s) && (y in s ==> Inserted(s, copies)[y] == s[y])
    ensures (exists n :: n in copies && n.id == y) ==>
              exists n :: n in copies && n.id == y && y in Inserted(s, copies) && Inserted(s, copies)[y] == Stored(n)
  {
    hide Stored;
    if copies != [] {
      var front, last := copies[..|copies| - 1], copies[|copies| - 1];
      InsertedAt(s, front, y);
      assert copies == front + [last];
      assert last in copies && forall n | n in front :: n in copies;
    }
  }

  ghost predicate HoldsCopy(c: Copying, t: Drives, x: Id)
    requires x in c.idMap
  {
    && c.target in c.s && c.MapsPath(x)
    && match c.CopyOf(x)
       case Some(n) => c.idMap[x] in t && t[c.idMap[x]] == Stored(n)
       case None => c.idMap[x] !in t
  }

  /** The old nodes as they were, and the copies under their new ids. */
  ghost predicate HoldsCopies(c: Copying, t: Drives) {
    && c.target in c.s
    && (forall y | y in c.s :: y in t && t[y] == c.s[y])
    && (forall x | x in c.idMap :: HoldsCopy(c, t, x))
    && forall y | y in t && y !in c.s :: exists x :: x in c.idMap && c.idMap[x] == y
  }

  lemma CopyIdIs(c: Copying, x: Id)
    requires c.target in c.s && c.MapsPath(x) && x in c.idMap && c.CopyOf(x).Some?
    ensures c.CopyOf(x).value.id == c.idMap[x]
  {
  }

  lemma InsertedBeside(c: Copying, copies: seq<CopyNode>)
    requires c.Ready() && IsCopies(c, copies)
    ensures forall y | y in c.s :: y in Inserted(c.s, copies) && Inserted(c.s, copies)[y] == c.s[y]
    ensures forall y | y in Inserted(c.s, copies) && y !in c.s :: exists x :: x in c.idMap && c.idMap[x] == y
  {
    var t := Inserted(c.s, copies);
    assert forall x | x in c.idMap :: Unused(c.s, c.idMap[x]);
    hide Walkable, Subtree, Inserted, Stored, Copying.Ready, Copying.CopyOf, Copying.MapsPath, Unused, IsCopies;
    forall n | n in copies ensures n.id !in c.s && exists x :: x in c.idMap && c.idMap[x] == n.id {
      var x := SourceOf(c, copies, n);
      CopyIdIs(c, x);
      UnusedIsNew(c.s, c.idMap[x]);
    }
    forall y | y in c.s ensures y in t && t[y] == c.s[y] { InsertedAt(c.s, copies, y); }
    forall y | y in t && y !in c.s ensures exists x :: x in c.idMap && c.idMap[x] == y { InsertedAt(c.s, copies, y); }
  }

  lemma InsertedHoldsCopies(c: Copying, copies: seq<CopyNode>)
    requires c.Ready() && IsCopies(c, copies)
    ensures HoldsCopies(c, Inserted(c.s, copies))
  {
    var t := Inserted(c.s, copies);
    InsertedBeside(c, copies);
    forall x | x in c.idMap ensures HoldsCopy(c, t, x) { InsertedCopy(c, copies, x); }
    assert c.target in c.s;
    hide Inserted, HoldsCopy, Copying.Ready, IsCopies;
  }

  lemma UnusedIsNew(s: Drives, y: Id)
    requires Unused(s, y)
    ensures y !in s
  {
  }

  lemma InsertedCopy(c: Copying, copies: seq<CopyNode>, x: Id)
    requires c.Ready() && IsCopies(c, copies) && x in c.idMap
    ensures HoldsCopy(c, Inserted(c.s, copies), x)
  {
    assert Unused(c.s, c.idMap[x]) && c.MapsPath(x);
    UnusedIsNew(c.s, c.idMap[x]);
    hide Walkable, Subtree, Inserted, Stored, Copying.CopyOf, Copying.MapsPath, Unused;
    forall n | n in copies && n.id == c.idMap[x] ensures c.CopyOf(x) == Some(n) {
      var y := SourceOf(c, copies, n);
      CopyIdIs(c, y);
      assert y == x;
    }
    if c.CopyOf(x).Some? { CopyIdIs(c, x); }
    InsertedAt(c.s, copies, c.idMap[x]);
  }

  lemma MapIdsDistinct(m: map<Id, Id>, ids: seq<Id>)
    requires forall x | x in ids :: x in m
    requires Distinct(ids) && forall x, y | x in m && y in m :: m[x] == m[y] ==> x == y
    ensures Distinct(MapIds(m, ids))
  {
    forall i, j | 0 <= i < j < |ids| ensures MapIds(m, ids)[i] != MapIds(m, ids)[j] {
      assert ids[i] in ids && ids[j] in ids;
    }
  }

  /** The copy's path ends at its new id. */
  lemma NewPathEnds(c: Copying, x: Id)
    requires c.Ready() && x in c.idMap
    ensures c.target in c.s && c.MapsPath(x) && c.NewPath(x) != [] && c.NewPath(x)[|c.NewPath(x)| - 1] == c.idMap[x]
  {
    MapsEveryPath(c, x);
    if x == c.id { CopiedTopPath(c); } else { CopiedPath(c, x); }
    assert c.target in c.s;
    hide Copying.Ready, Copying.MapsPath, Copying.NewPath;
  }

  lemma JoinedDistinct(m: map<Id, Id>, above: seq<Id>, tail: seq<Id>)
    requires forall x | x in tail :: x in m && m[x] !in above
    requires Distinct(above) && Distinct(tail) && forall x, y | x in m && y in m :: m[x] == m[y] ==> x == y
    ensures Distinct(above + MapIds(m, tail))
  {
    MapIdsDistinct(m, tail);
    forall y | y in above ensures y !in MapIds(m, tail) {
      forall i | 0 <= i < |tail| ensures MapIds(m, tail)[i] != y { assert tail[i] in tail; }
    }
    DistinctAppend(above, MapIds(m, tail));
  }

  lemma DistinctTail(path: seq<Id>, k: nat)
    requires Distinct(path) && k <= |path|
    ensures Distinct(path[k..])
  {
  }

  /** No node is on it twice. */
  lemma NewPathDistinct(c: Copying, x: Id)
    requires c.Ready() && x in c.idMap
    ensures c.target in c.s && c.MapsPath(x) && Distinct(c.NewPath(x))
  {
    MapsEveryPath(c, x);
    assert PlaceOk(c.s, x) && PlaceOk(c.s, c.target) && c.OneIdEach();
    forall y | y in c.idMap ensures c.idMap[y] !in c.s[c.target].path { assert Unused(c.s, c.idMap[y]); }
    hide Walkable, Subtree, IndexOf, Distinct, Unused, Copying.Ready;
    DistinctTail(c.s[x].path, IndexOf(c.s[x].path, c.id));
    JoinedDistinct(c.idMap, c.s[c.target].path, c.s[x].path[IndexOf(c.s[x].path, c.id)..]);
  }

  lemma OldStaysOld(c: Copying, t: Drives, y: Id, z: Id)
    requires c.Ready() && HoldsCopies(c, t) && y in c.s && z in t
    requires z in c.s[y].children || c.s[y].parent == Some(z)
    ensures z in c.s
  {
    hide Copying.MapsPath, Copying.CopyOf, Walkable, Subtree;
    forall x | x in c.idMap ensures c.idMap[x] != z { assert Unused(c.s, c.idMap[x]); }
  }

  lemma OldPlaceOk(c: Copying, t: Drives, y: Id)
    requires c.Ready() && HoldsCopies(c, t) && Live(c.s, y)
    ensures Live(t, y) && PlaceOk(t, y)
  {
    assert PlaceOk(c.s, y);
    assert forall z | z in c.s :: z in t && t[z] == c.s[z];
    forall z | z in t && (z in c.s[y].children || c.s[y].parent == Some(z)) ensures z in c.s {
      OldStaysOld(c, t, y, z);
    }
    hide HoldsCopies, Copying.Ready, Distinct;
  }

  lemma CopyFields(c: Copying, x: Id)
    requires c.target in c.s && c.MapsPath(x) && x in c.idMap && c.CopyOf(x).Some?
    ensures var n := c.CopyOf(x).value;
      && c.s[x].parent.Some? && n.path == c.NewPath(x) && n.kind == c.s[x].kind
      && n.fileId == (if c.s[x].fileId.Some? then Some(c.newUri(x)) else None)
      && n.parent == (if c.s[x].parent.value in c.idMap then c.idMap[c.s[x].parent.value] else c.target)
      && |n.children| == |c.s[x].children|
      && forall i | 0 <= i < |n.children| ::
           n.children[i] == if c.s[x].children[i] in c.idMap then Some(c.idMap[c.s[x].children[i]]) else None
  {
    var n := c.CopyOf(x).value;
    hide Copying.NewPath, Copying.MapsPath;
    assert forall i | 0 <= i < |n.children| :: n.children[i] == c.MapChild()(c.s[x].children[i]);
  }

  lemma StoredCopy(c: Copying, t: Drives, x: Id)
    requires c.Ready() && HoldsCopies(c, t) && x in c.idMap && c.idMap[x] in t
    ensures c.target in c.s && c.MapsPath(x) && c.CopyOf(x).Some? && t[c.idMap[x]] == Stored(c.CopyOf(x).value)
    ensures c.idMap[x] !in c.s && NO_ID !in t
  {
    assert forall y | y in c.idMap :: Unused(c.s, c.idMap[y]);
    hide Copying.MapsPath, Copying.CopyOf, Walkable, Subtree;
  }

  lemma StoredFields(c: Copying, t: Drives, x: Id)
    requires c.Ready() && HoldsCopies(c, t) && x in c.idMap && c.idMap[x] in t
    ensures x in c.s && c.target in c.s && c.MapsPath(x) && c.s[x].parent.Some?
    ensures t[c.idMap[x]].path == c.NewPath(x) && t[c.idMap[x]].deletedTime == None
    ensures var n := t[c.idMap[x]];
      && n.kind == c.s[x].kind
      && n.fileId == (if c.s[x].fileId.Some? then Some(c.newUri(x)) else None)
      && n.parent == Some(if c.s[x].parent.value in c.idMap then c.idMap[c.s[x].parent.value] else c.target)
      && |n.children| == |c.s[x].children|
      && forall i | 0 <= i < |n.children| ::
           n.children[i] == if c.s[x].children[i] in c.idMap then c.idMap[c.s[x].children[i]] else NO_ID
  {
    StoredCopy(c, t, x);
    CopyFields(c, x);
    hide Copying.Ready, Copying.CopyOf, Copying.NewPath, HoldsCopies;
  }

  /** A listed live child of a copy is the copy of a child. */
  lemma CopiedChild(c: Copying, t: Drives, x: Id, i: nat)
    requires c.Ready() && HoldsCopies(c, t) && x in c.idMap && c.idMap[x] in t
    requires i < |t[c.idMap[x]].children| && Live(t, t[c.idMap[x]].children[i])
    ensures x in c.s && |t[c.idMap[x]].children| == |c.s[x].children|
    ensures c.s[x].children[i] in c.idMap && t[c.idMap[x]].children[i] == c.idMap[c.s[x].children[i]]
    ensures Live(c.s, c.s[x].children[i]) && c.s[c.s[x].children[i]].parent == Some(x)
    ensures t[t[c.idMap[x]].children[i]].parent == Some(c.idMap[x])
  {
    StoredCopy(c, t, x);
    StoredFields(c, t, x);
    ChildrenAreFound(c, x, i);
    hide Copying.Ready, HoldsCopies, Copying.CopyOf, Copying.NewPath;
    var y := c.s[x].children[i];
    assert y in c.idMap;
    StoredFields(c, t, y);
  }

  lemma CopiedChildren(c: Copying, t: Drives, x: Id)
    requires c.Ready() && HoldsCopies(c, t) && x in c.idMap && c.idMap[x] in t
    ensures forall z | z in t[c.idMap[x]].children && Live(t, z) :: t[z].parent == Some(c.idMap[x])
    ensures var children := t[c.idMap[x]].children;
            forall i, j | 0 <= i < j < |children| && Live(t, children[i]) :: children[i] != children[j]
  {
    var y := c.idMap[x];
    SubtreeOnPath(c.s, c.id, x);
    assert PlaceOk(c.s, x);
    forall i | 0 <= i < |t[y].children| && Live(t, t[y].children[i])
      ensures t[t[y].children[i]].parent == Some(y) && i < |c.s[x].children| == |t[y].children|
      ensures c.s[x].children[i] in c.idMap && t[y].children[i] == c.idMap[c.s[x].children[i]]
      ensures Live(c.s, c.s[x].children[i])
    {
      CopiedChild(c, t, x, i);
    }
    assert c.OneIdEach();
    hide Copying.Ready, HoldsCopies, Walkable, Subtree, PlaceOk;
  }

  lemma CopiedFile(c: Copying, t: Drives, x: Id)
    requires c.Ready() && HoldsCopies(c, t) && x in c.idMap && c.idMap[x] in t
    ensures t[c.idMap[x]].kind.File? ==> t[c.idMap[x]].children == []
  {
    SubtreeOnPath(c.s, c.id, x);
    assert PlaceOk(c.s, x);
    hide *;
    StoredFields(c, t, x);
  }

  lemma CopiedPathOk(c: Copying, t: Drives, x: Id)
    requires c.Ready() && HoldsCopies(c, t) && x in c.idMap && c.idMap[x] in t
    ensures var path := t[c.idMap[x]].path;
            path != [] && path[|path| - 1] == c.idMap[x] && Distinct(path)
  {
    hide *;
    StoredFields(c, t, x);
    NewPathEnds(c, x);
    NewPathDistinct(c, x);
  }

  lemma CopyPlaceOk(c: Copying, t: Drives, x: Id)
    requires c.Ready() && HoldsCopies(c, t) && x in c.idMap && c.idMap[x] in t
    ensures PlaceOk(t, c.idMap[x])
  {
    CopiedFile(c, t, x);
    CopiedPathOk(c, t, x);
    CopyParent(c, t, x);
    CopiedChildren(c, t, x);
    hide Copying.Ready, HoldsCopies, Distinct;
  }

  lemma CopyParent(c: Copying, t: Drives, x: Id)
    requires c.Ready() && HoldsCopies(c, t) && x in c.idMap && c.idMap[x] in t
    ensures t[c.idMap[x]].parent.Some?
    ensures t[c.idMap[x]].parent.value in t ==> t[c.idMap[x]].path == t[t[c.idMap[x]].parent.value].path + [c.idMap[x]]
  {
    assert c.target in c.s && t[c.target] == c.s[c.target];
    hide *;
    StoredFields(c, t, x);
    MapsEveryPath(c, x);
    if x == c.id {
      CopiedTopPath(c);
    } else {
      CopiedPath(c, x);
      if c.idMap[c.s[x].parent.value] in t { StoredFields(c, t, c.s[x].parent.value); }
    }
  }

  lemma CopyKeepsWalkable(c: Copying, copies: seq<CopyNode>)
    requires c.Ready() && IsCopies(c, copies)
    ensures Copyable(Inserted(c.s, copies))
  {
    var t := Inserted(c.s, copies);
    InsertedHoldsCopies(c, copies);
    assert forall x | x in c.idMap :: Unused(c.s, c.idMap[x]);
    hide Inserted, IsCopies, PlaceOk, Walkable, Subtree, Copying.CopyOf, Copying.MapsPath;
    assert NO_ID !in t;
    forall y | Live(t, y) ensures PlaceOk(t, y) {
      if y in c.s {
        OldPlaceOk(c, t, y);
      } else {
        var x :| x in c.idMap && c.idMap[x] == y;
        CopyPlaceOk(c, t, x);
      }
    }
    assert Walkable(t);
  }

  // ----- the walk does not find the copy ------------------------------------

  /** The target does not list the copied top node, so the collection is no tree any more. */
  lemma CopyBreaksTree(c: Copying, t: Drives)
    requires c.Ready() && HoldsCopies(c, t) && c.id in c.idMap && c.idMap[c.id] in t
    ensures t[c.idMap[c.id]].parent == Some(c.target) && c.idMap[c.id] !in t[c.target].children && !Tree(t)
  {
    var y := c.idMap[c.id];
    assert Unused(c.s, y);
    StoredCopy(c, t, c.id);
    CopyFields(c, c.id);
    MapsEveryPath(c, c.id);
    hide Walkable, Subtree, Copying.Ready, Copying.CopyOf, Copying.NewPath, Copying.MapsPath, HoldsCopies;
    assert t[c.target] == c.s[c.target];
    assert Live(t, y) && !ParentOk(t, y);
  }

  /** From every node that was there the walk finds what it found before: whatever is done to a folder above the
      target, deleting or sharing it, misses the copy. */
  lemma {:induction false} CopyIsNotFound(c: Copying, t: Drives, y: Id)
    requires c.Ready() && HoldsCopies(c, t) && Walkable(t) && Live(c.s, y)
    ensures Live(t, y) && Subtree(t, y) == Subtree(c.s, y)
    decreases Room(c.s, y), |c.s[y].children| + 1
  {
    assert t[y] == c.s[y];
    CopyIsNotFoundBelow(c, t, y, c.s[y].children);
  }

  lemma {:induction false} CopyIsNotFoundBelow(c: Copying, t: Drives, y: Id, children: seq<Id>)
    requires c.Ready() && HoldsCopies(c, t) && Walkable(t) && Live(c.s, y)
    requires forall z | z in children :: z in c.s[y].children
    ensures Live(t, y) && t[y] == c.s[y] && Below(t, y, children) == Below(c.s, y, children)
    decreases Room(c.s, y), |children|
  {
    assert Walkable(c.s) && c.target in c.s && t[y] == c.s[y];
    hide Copying.Ready, Walkable, Room;
    if children != [] {
      var z := children[0];
      CopyIsNotFoundBelow(c, t, y, children[1..]);
      if z in t { OldStaysOld(c, t, y, z); }
      if Live(c.s, z) {
        ListedPath(c.s, y, z);
        CopyIsNotFound(c, t, z);
      }
    }
  }

  /** A walk from a copy finds copies only. */
  lemma FoundIsCopy(c: Copying, t: Drives, x: Id, z: Id) returns (y: Id)
    requires c.Ready() && HoldsCopies(c, t) && Walkable(t) && x in c.idMap && Live(t, c.idMap[x])
    requires z in Subtree(t, c.idMap[x])
    ensures y in c.idMap && c.idMap[y] == z && z in t
  {
    SubtreeOnPath(t, c.idMap[x], z);
    assert Unused(c.s, c.idMap[x]);
    hide Walkable, Subtree, Copying.Ready, Copying.CopyOf, Copying.MapsPath;
    assert forall w | w in c.s :: t[w] == c.s[w] && c.idMap[x] !in t[w].path;
    y :| y in c.idMap && c.idMap[y] == z;
  }

  // ----- the walk from the copy ---------------------------------------------

  function CopiedId(c: Copying): Id -> Option<Id> {
    (x: Id) => match Copier(c)(x) case Some(n) => Some(n.id) case None => None
  }

  /** The new ids of the copies of these nodes, in order. */
  function CopiedIds(c: Copying, ids: seq<Id>): seq<Id> { Collect(ids, CopiedId(c)) }

  lemma CopiedIdsConcat(c: Copying, a: seq<Id>, b: seq<Id>)
    ensures CopiedIds(c, a + b) == CopiedIds(c, a) + CopiedIds(c, b)
  {
    CollectConcat(a, b, CopiedId(c));
    hide CopiedId, Collect;
  }

  lemma CopiedIdsOne(c: Copying, x: Id)
    requires c.target in c.s && c.MapsPath(x) && x in c.idMap
    ensures CopiedIds(c, [x]) == if c.CopyOf(x).Some? then [c.idMap[x]] else []
  {
    if c.CopyOf(x).Some? { CopyIdIs(c, x); }
    hide Copying.CopyOf, Copying.MapsPath;
    assert Copier(c)(x) == c.CopyOf(x);
    assert [x][1..] == [] && CopiedIds(c, []) == [];
    assert CopiedIds(c, [x]) == (match CopiedId(c)(x) case Some(y) => [y] case None => []) + [];
  }

  lemma NothingCopiedIds(c: Copying)
    ensures CopiedIds(c, []) == []
  {
  }

  ghost predicate FoldersHoldNoFile(c: Copying) {
    forall y | y in c.idMap && y in c.s && c.s[y].kind.Folder? :: c.s[y].fileId == None
  }

  ghost predicate CopiedAt(c: Copying, t: Drives, x: Id) {
    && c.Ready() && HoldsCopies(c, t) && Walkable(t) && FoldersHoldNoFile(c)
    && x in c.idMap && Live(c.s, x) && Live(t, c.idMap[x])
  }

  lemma CopiedIsAt(c: Copying, t: Drives, x: Id)
    requires c.Ready() && HoldsCopies(c, t) && Walkable(t) && FoldersHoldNoFile(c) && x in c.idMap && c.idMap[x] in t
    ensures CopiedAt(c, t, x) && t[c.idMap[x]].kind == c.s[x].kind
    ensures |t[c.idMap[x]].children| == |c.s[x].children|
    ensures CopiedIds(c, [x]) == [c.idMap[x]]
  {
    StoredCopy(c, t, x);
    CopyFields(c, x);
    MapsEveryPath(c, x);
    CopiedIdsOne(c, x);
    hide CopiedIds, Copying.Ready, Copying.CopyOf, HoldsCopies, FoldersHoldNoFile, Walkable, Copying.MapsPath;
  }

  lemma CopiedFacts(c: Copying, t: Drives, x: Id)
    requires CopiedAt(c, t, x)
    ensures x in c.idMap && Live(c.s, x) && Live(t, c.idMap[x]) && Walkable(c.s) && Walkable(t)
    ensures t[c.idMap[x]].kind == c.s[x].kind
    ensures |t[c.idMap[x]].children| == |c.s[x].children| == ChildCount(c.s, x)
    ensures CopiedIds(c, [x]) == [c.idMap[x]] && CopiedIds(c, []) == []
  {
    CopiedIsAt(c, t, x);
    NothingCopiedIds(c);
  }

  /** What the walk finds below the children from the k-th on. */
  ghost function BelowFrom(s: Drives, id: Id, k: nat): seq<Id>
    requires Walkable(s) && Live(s, id) && k <= |s[id].children|
  {
    Below(s, id, s[id].children[k..])
  }

  ghost function SubtreeIfLive(s: Drives, id: Id): seq<Id>
    requires Walkable(s)
  {
    if Live(s, id) then Subtree(s, id) else []
  }

  lemma SubtreeStarts(s: Drives, id: Id)
    requires Walkable(s) && Live(s, id)
    ensures Subtree(s, id) == [id] + if s[id].kind.Folder? then BelowFrom(s, id, 0) else []
  {
    assert s[id].children[0..] == s[id].children;
  }

  lemma BelowContinues(s: Drives, id: Id, k: nat)
    requires Walkable(s) && Live(s, id) && k <= |s[id].children|
    ensures k == |s[id].children| ==> BelowFrom(s, id, k) == []
    ensures k < |s[id].children| ==>
              BelowFrom(s, id, k) == SubtreeIfLive(s, s[id].children[k]) + BelowFrom(s, id, k + 1)
    ensures k < |s[id].children| && Live(s, s[id].children[k]) ==> Room(s, s[id].children[k]) < Room(s, id)
  {
    var children := s[id].children;
    if k < |children| {
      assert children[k..][0] == children[k] && children[k..][1..] == children[k + 1..];
      if Live(s, children[k]) { ListedPath(s, id, children[k]); }
    }
  }

  /** From the k-th child on the walk below the copy finds the copies of what it finds below the original. */
  ghost predicate AlikeFrom(c: Copying, t: Drives, x: Id, k: nat) {
    && x in c.idMap && Walkable(c.s) && Walkable(t) && Live(c.s, x) && Live(t, c.idMap[x])
    && k <= |c.s[x].children| == |t[c.idMap[x]].children|
    && BelowFrom(t, c.idMap[x], k) == CopiedIds(c, BelowFrom(c.s, x, k))
  }

  ghost predicate Alike(c: Copying, t: Drives, x: Id) {
    && x in c.idMap && Walkable(c.s) && Walkable(t) && Live(c.s, x) && Live(t, c.idMap[x])
    && Subtree(t, c.idMap[x]) == CopiedIds(c, Subtree(c.s, x))
  }

  ghost function RoomOf(s: Drives, x: Id): nat { if Live(s, x) then Room(s, x) else 0 }

  function ChildCount(s: Drives, x: Id): nat { if x in s then |s[x].children| else 0 }

  lemma {:induction false} CopiedIsAlike(c: Copying, t: Drives, x: Id)
    requires CopiedAt(c, t, x)
    ensures Alike(c, t, x)
    decreases RoomOf(c.s, x), ChildCount(c.s, x) + 1
  {
    CopiedFacts(c, t, x);
    hide CopiedAt, Walkable, Subtree, Below, BelowFrom, CopiedIds, Room;
    SubtreeStarts(c.s, x);
    SubtreeStarts(t, c.idMap[x]);
    if c.s[x].kind.Folder? {
      CopiedIsAlikeFrom(c, t, x, 0);
      CopiedIdsConcat(c, [x], BelowFrom(c.s, x, 0));
    } else {
      assert [x] + [] == [x];
    }
  }

  lemma {:induction false} CopiedIsAlikeFrom(c: Copying, t: Drives, x: Id, k: nat)
    requires CopiedAt(c, t, x) && k <= ChildCount(c.s, x)
    ensures AlikeFrom(c, t, x, k)
    decreases RoomOf(c.s, x), ChildCount(c.s, x) - k
  {
    hide *;
    if k == ChildCount(c.s, x) {
      AlikeAtEnd(c, t, x);
    } else {
      CopiedIsAlikeFrom(c, t, x, k + 1);
      CloserBelow(c, t, x, k);
      if CopiedAt(c, t, c.s[x].children[k]) { CopiedIsAlike(c, t, c.s[x].children[k]); }
      AlikeStep(c, t, x, k);
    }
  }

  lemma CloserBelow(c: Copying, t: Drives, x: Id, k: nat)
    requires CopiedAt(c, t, x) && k < ChildCount(c.s, x)
    ensures x in c.s && k < |c.s[x].children|
    ensures CopiedAt(c, t, c.s[x].children[k]) ==> RoomOf(c.s, c.s[x].children[k]) < RoomOf(c.s, x)
  {
    var z := c.s[x].children[k];
    CopiedFacts(c, t, x);
    if CopiedAt(c, t, z) {
      CopiedFacts(c, t, z);
      hide CopiedAt, Walkable;
      ListedPath(c.s, x, z);
    }
  }

  lemma AlikeAtEnd(c: Copying, t: Drives, x: Id)
    requires CopiedAt(c, t, x)
    ensures AlikeFrom(c, t, x, ChildCount(c.s, x))
  {
    CopiedFacts(c, t, x);
    hide CopiedAt, Walkable, Subtree, CopiedIds, Room;
    BelowContinues(c.s, x, |c.s[x].children|);
    BelowContinues(t, c.idMap[x], |c.s[x].children|);
  }

  lemma AlikeStep(c: Copying, t: Drives, x: Id, k: nat)
    requires CopiedAt(c, t, x) && x in c.s && k < |c.s[x].children| && AlikeFrom(c, t, x, k + 1)
    requires CopiedAt(c, t, c.s[x].children[k]) ==> Alike(c, t, c.s[x].children[k])
    ensures AlikeFrom(c, t, x, k)
  {
    ListedIsAlike(c, t, x, k);
    BelowContinues(c.s, x, k);
    BelowContinues(t, c.idMap[x], k);
    CopiedIdsConcat(c, SubtreeIfLive(c.s, c.s[x].children[k]), BelowFrom(c.s, x, k + 1));
    hide CopiedAt, Walkable, Subtree, BelowFrom, CopiedIds, Room, SubtreeIfLive;
  }

  lemma ListedIsAlike(c: Copying, t: Drives, x: Id, k: nat)
    requires CopiedAt(c, t, x) && k < |c.s[x].children| == |t[c.idMap[x]].children|
    requires var z := c.s[x].children[k]; CopiedAt(c, t, z) ==> Alike(c, t, z)
    ensures SubtreeIfLive(t, t[c.idMap[x]].children[k]) == CopiedIds(c, SubtreeIfLive(c.s, c.s[x].children[k]))
  {
    ListedCopy(c, t, x, k);
    CopiedFacts(c, t, x);
    hide CopiedAt, CopiedIds, Walkable, Subtree;
    if CopiedAt(c, t, c.s[x].children[k]) { CopiedFacts(c, t, c.s[x].children[k]); }
  }

  /** The walk from the copied top node finds the copies, in the order in which it found the originals. */
  lemma CopyWalksAlike(c: Copying, copies: seq<CopyNode>)
    requires c.Ready() && IsCopies(c, copies) && FoldersHoldNoFile(c)
    ensures var t := Inserted(c.s, copies);
      && c.id in c.idMap && Walkable(t)
      && (c.idMap[c.id] in t ==>
            Live(t, c.idMap[c.id]) && Subtree(t, c.idMap[c.id]) == CopiedIds(c, Subtree(c.s, c.id)))
  {
    var t := Inserted(c.s, copies);
    assert c.id in Subtree(c.s, c.id) && c.id in c.idMap;
    CopyKeepsWalkable(c, copies);
    InsertedHoldsCopies(c, copies);
    hide Inserted, IsCopies, Copying.Ready, HoldsCopies, CopiedAt, Walkable, Subtree, FoldersHoldNoFile;
    if c.idMap[c.id] in t {
      CopiedIsAt(c, t, c.id);
      CopiedIsAlike(c, t, c.id);
    }
  }

  /** A listed child is live in the copy exactly if it is live in the original and was copied; one that was not is a
      file. */
  lemma ListedCopy(c: Copying, t: Drives, x: Id, i: nat)
    requires CopiedAt(c, t, x) && i < |c.s[x].children| == |t[c.idMap[x]].children|
    ensures var z, w := c.s[x].children[i], t[c.idMap[x]].children[i];
      && (Live(t, w) ==> Live(c.s, z)) && (Live(c.s, z) ==> z in c.idMap && w == c.idMap[z])
      && (Live(c.s, z) && w !in t ==> CopiedIds(c, Subtree(c.s, z)) == [])
      && (Live(c.s, z) && w in t ==> CopiedAt(c, t, z))
  {
    var z, w := c.s[x].children[i], t[c.idMap[x]].children[i];
    StoredCopy(c, t, x);
    CopyFields(c, x);
    ChildrenAreFound(c, x, i);
    assert z in c.idMap ==> w == c.idMap[z];
    assert z !in c.idMap ==> w == NO_ID;
    hide CopiedIds, Copying.Ready, Copying.CopyOf, Stored;
    if z in c.idMap {
      MapsEveryPath(c, z);
      CopiedIdsOne(c, z);
      if w in t {
        CopiedIsAt(c, t, z);
      } else {
        assert c.CopyOf(z) == None;
        LeftOutIsFile(c, z);
      }
    }
  }

  lemma LeftOutIsFile(c: Copying, z: Id)
    requires c.Ready() && FoldersHoldNoFile(c) && z in c.idMap
    requires c.target in c.s && c.MapsPath(z) && c.CopyOf(z) == None
    ensures Live(c.s, z) && Subtree(c.s, z) == [z]
  {
    MapsEveryPath(c, z);
  }

  // ----- a copy of a copy ---------------------------------------------------

  /** A copied file points to an object that has no file record, so the next copy, made of the copy in the collection
      the first one leaves, holds no file. */
  lemma CopyOfCopyHasNoFile(c: Copying, copies: seq<CopyNode>, d: Copying, again: seq<CopyNode>)
    requires c.Ready() && IsCopies(c, copies) && d.Ready() && IsCopies(d, again)
    requires d.s == Inserted(c.s, copies) && c.id in c.idMap && d.id == c.idMap[c.id] && d.files == c.files
    requires forall x | x in c.idMap :: c.newUri(x) !in c.files
    ensures forall m | m in again :: m.fileId == None
  {
    InsertedHoldsCopies(c, copies);
    hide Inserted, IsCopies, Copying.CopyOf, Copying.MapsPath, Walkable, Subtree;
    forall m | m in again ensures m.fileId == None {
      var z := SourceOf(d, again, m);
      var y := FoundIsCopy(c, d.s, c.id, z);
      StoredCopy(c, d.s, y);
      CopyFields(c, y);
      CopyTells(d, z, m);
      CopyFields(d, z);
    }
  }

  lemma TopIsFirst(s: Drives, id: Id)
    requires Walkable(s) && Live(s, id)
    ensures Subtree(s, id) != [] && Subtree(s, id)[0] == id && (s[id].kind.File? ==> Subtree(s, id) == [id])
  {
  }

  lemma FirstCopied(c: Copying, ids: seq<Id>, x: Id)
    requires ids != [] && ids[0] == x && c.target in c.s && c.MapsPath(x) && x in c.idMap
    ensures c.CopyOf(x).Some? ==> Collect(ids, Copier(c)) != []
    ensures c.CopyOf(x) == None && ids == [x] ==> Collect(ids, Copier(c)) == []
  {
    hide Copying.CopyOf, Copying.MapsPath;
    assert Copier(c)(x) == c.CopyOf(x);
    if c.CopyOf(x).Some? { CollectMember(ids, Copier(c), c.CopyOf(x).value); }
    assert [x][1..] == [];
  }

  /** Nothing is copied exactly if the record of the one file copied is missing. */
  lemma NothingCopiedIff(c: Copying)
    requires c.Ready()
    ensures c.s[c.id].kind.File? ==>
              (CopiesOf(c) == [] <==> c.s[c.id].fileId.Some? && c.s[c.id].fileId.value !in c.files)
    ensures c.s[c.id].fileId == None ==> CopiesOf(c) != []
  {
    TopIsFirst(c.s, c.id);
    MapsEveryPath(c, c.id);
    FirstCopied(c, Subtree(c.s, c.id), c.id);
    hide Walkable, Subtree, Copying.Ready, Copying.MapsPath, Collect, Copying.NewPath;
  }

  // ----- the call -----------------------------------------------------------

  /** The i-th node found gets the i-th uuid. */
  function IdMap(ids: seq<Id>, newIds: nat -> Id): (m: map<Id, Id>)
    ensures forall x :: x in m <==> x in ids
  {
    if ids == [] then map[]
    else IdMap(ids[..|ids| - 1], newIds)[ids[|ids| - 1] := newIds(|ids| - 1)]
  }

  lemma {:induction false} IdMapGives(ids: seq<Id>, newIds: nat -> Id, i: nat)
    requires Distinct(ids) && i < |ids|
    ensures IdMap(ids, newIds)[ids[i]] == newIds(i)
  {
    if i < |ids| - 1 { IdMapGives(ids[..|ids| - 1], newIds, i); }
  }

  ghost predicate FreshIds(s: Drives, newIds: nat -> Id) {
    && (forall i, j :: newIds(i) == newIds(j) ==> i == j)
    && forall i :: Unused(s, newIds(i))
  }

  lemma CopyingIsReady(c: Copying, newIds: nat -> Id)
    requires Copyable(c.s) && Live(c.s, c.id) && c.s[c.id].parent.Some? && Live(c.s, c.target)
    requires FreshIds(c.s, newIds) && c.idMap == IdMap(Subtree(c.s, c.id), newIds)
    ensures c.Ready()
  {
    var ids := Subtree(c.s, c.id);
    WalkVisitsOnce(c.s, c.id);
    hide Walkable, Subtree, Distinct, Unused;
    forall x | x in c.idMap ensures exists i | 0 <= i < |ids| :: ids[i] == x && c.idMap[x] == newIds(i) {
      var i :| 0 <= i < |ids| && ids[i] == x;
      IdMapGives(ids, newIds, i);
    }
    hide IdMap;
    forall x, y | x in c.idMap && y in c.idMap && c.idMap[x] == c.idMap[y] ensures x == y {
      var i :| 0 <= i < |ids| && ids[i] == x && c.idMap[x] == newIds(i);
      var j :| 0 <= j < |ids| && ids[j] == y && c.idMap[y] == newIds(j);
    }
  }

  function Copier(c: Copying): Id -> Option<CopyNode> {
    (x: Id) => if c.target in c.s && c.MapsPath(x) && x in c.idMap then c.CopyOf(x) else None
  }

  lemma {:induction false} CollectMember<T, U>(s: seq<T>, f: T -> Option<U>, u: U)
    ensures u in Collect(s, f) <==> exists i | 0 <= i < |s| :: f(s[i]) == Some(u)
  {
    if s != [] {
      CollectMember(s[1..], f, u);
      if u in Collect(s[1..], f) {
        var i :| 0 <= i < |s[1..]| && f(s[1..][i]) == Some(u);
        assert f(s[i + 1]) == Some(u);
      }
      if i :| 0 <= i < |s| && f(s[i]) == Some(u) {
        assert i > 0 ==> f(s[1..][i - 1]) == Some(u);
      }
    }
  }

  /** The nodes put into the database, in the order of the walk. */
  ghost function CopiesOf(c: Copying): seq<CopyNode>
    requires Walkable(c.s) && Live(c.s, c.id)
  {
    Collect(Subtree(c.s, c.id), Copier(c))
  }

  lemma CollectedAreCopies(c: Copying)
    requires c.Ready()
    ensures IsCopies(c, CopiesOf(c))
  {
    var ids := Subtree(c.s, c.id);
    var copies := Collect(ids, Copier(c));
    assert c.target in c.s && forall x :: x in c.idMap <==> x in ids;
    forall x | x in c.idMap ensures c.MapsPath(x) { MapsEveryPath(c, x); }
    hide Walkable, Subtree, Copying.Ready, Copying.CopyOf, Copying.MapsPath, Collect;
    forall n | n in copies ensures exists x :: x in c.idMap && c.MapsPath(x) && c.CopyOf(x) == Some(n) {
      CollectMember(ids, Copier(c), n);
      var i :| 0 <= i < |ids| && Copier(c)(ids[i]) == Some(n);
      assert ids[i] in c.idMap;
    }
    forall x | x in c.idMap && c.CopyOf(x).Some? ensures c.CopyOf(x).value in copies {
      var i :| 0 <= i < |ids| && ids[i] == x;
      assert Copier(c)(ids[i]) == Some(c.CopyOf(x).value);
      CollectMember(ids, Copier(c), c.CopyOf(x).value);
    }
  }

  predicate MayRead(n: Node, u: User) {
    || n.managerId == u.id
    || exists i | 0 <= i < |n.sharedUsers| :: n.sharedUsers[i].iid == u.id && n.sharedUsers[i].canRead
  }

  /** The target need not be a folder. */
  predicate MayCopy(s: Drives, u: User, id: Id, target: Id) {
    && Live(s, id) && s[id].parent.Some? && MayRead(s[id], u)
    && Live(s, target) && MayWrite(s[target], u)
  }

  ghost function TheCopying(s: Drives, u: User, id: Id, target: Id, files: set<string>, newIds: nat -> Id,
                            newUri: Id -> string): Copying
    requires Walkable(s) && Live(s, id)
  {
    Copying(s, id, target, u, IdMap(Subtree(s, id), newIds), files, newUri)
  }

  /** The copies are inserted, and no node that was there is updated. The insertion of an empty list throws. The limit
      on the size of the user's files is an input. */
  method CopyDrive(store: DriveStore, requester: Option<User>, driveId: Id, targetParentId: Id, files: set<string>,
                   withinLimit: bool, newIds: nat -> Id, newUri: Id -> string) returns (r: Result<seq<CopyNode>, Error>)
    requires Copyable(store.drives) && FreshIds(store.drives, newIds)
    modifies store`drives
    ensures requester == None ==> r == Err(NotLoggedIn)
    ensures requester.Some? && !MayCopy(old(store.drives), requester.value, driveId, targetParentId) ==>
              r == Err(NoPermission)
    ensures requester.Some? && MayCopy(old(store.drives), requester.value, driveId, targetParentId) ==>
      var c := TheCopying(old(store.drives), requester.value, driveId, targetParentId, files, newIds, newUri);
      && c.Ready() && IsCopies(c, CopiesOf(c))
      && r == if !withinLimit then Err(Malformed) else if CopiesOf(c) == [] then Err(EmptyInsert) else Ok(CopiesOf(c))
    ensures store.drives == if r.Ok? then Inserted(old(store.drives), r.value) else old(store.drives)
    ensures Copyable(store.drives)
  {
    hide Walkable, Subtree, Copying.Ready, Copying.CopyOf, Copying.MapsPath, Collect, IsCopies, IdMap, Unused, Inserted;
    if requester == None { return Err(NotLoggedIn); }
    var drives, user := store.drives, requester.value;
    if driveId !in drives || drives[driveId].deletedTime != None || drives[driveId].parent == None
      || !MayRead(drives[driveId], user) { return Err(NoPermission); }
    if targetParentId !in drives || drives[targetParentId].deletedTime != None
      || !MayWrite(drives[targetParentId], user) {
      return Err(NoPermission);
    }
    var _, driveIds := store.RecursiveFindDrives(driveId, [], []);
    assert driveIds == Subtree(drives, driveId);
    ghost var it := TheCopying(drives, user, driveId, targetParentId, files, newIds, newUri);
    CopyingIsReady(it, newIds);
    CollectedAreCopies(it);
    if !withinLimit { return Err(Malformed); }
    var idMap: map<Id, Id> := map[];
    EmptyIdMap(newIds);
    for k := 0 to |driveIds|
      invariant idMap == IdMap(driveIds[..k], newIds) && store.drives == drives
    {
      IdMapPush(driveIds, newIds, k);
      idMap := idMap[driveIds[k] := newIds(k)];
    }
    assert driveIds[..|driveIds|] == driveIds;
    var c := Copying(drives, driveId, targetParentId, user, idMap, files, newUri);
    assert c == it;
    var newDrivesForDatabase := CopyNodes(c, driveIds);
    if newDrivesForDatabase == [] { return Err(EmptyInsert); }
    CopyKeepsWalkable(c, newDrivesForDatabase);
    store.drives := Inserted(drives, newDrivesForDatabase);
    return Ok(newDrivesForDatabase);
  }

  lemma PathUses(c: Copying, x: Id, y: Id)
    requires c.target in c.s && c.MapsPath(x) && x in c.idMap && y in c.NewPath(x)
    ensures y in c.s[c.target].path || exists z :: z in c.idMap && y == c.idMap[z]
  {
    var path := c.s[x].path[IndexOf(c.s[x].path, c.id)..];
    if y !in c.s[c.target].path {
      var i :| 0 <= i < |MapIds(c.idMap, path)| && MapIds(c.idMap, path)[i] == y;
      assert path[i] in path && y == c.idMap[path[i]];
    }
  }

  /** An id that no node mentions and that is none of the copies' stays unused. */
  lemma StaysUnused(c: Copying, t: Drives, y: Id)
    requires c.Ready() && HoldsCopies(c, t) && Unused(c.s, y) && forall x | x in c.idMap :: c.idMap[x] != y
    ensures Unused(t, y)
  {
    assert forall w | w in c.s :: t[w] == c.s[w];
    forall w | w in t ensures Mentions(t[w], y) ==> false {
      if w !in c.s {
        var x :| x in c.idMap && c.idMap[x] == w;
        NotMentioned(c, t, x, y);
      }
    }
    hide Copying.Ready;
  }

  predicate Mentions(n: Node, y: Id) { y in n.path || y in n.children || n.parent == Some(y) }

  lemma UnusedIsApart(s: Drives, y: Id, x: Id)
    requires Unused(s, y) && x in s
    ensures y != NO_ID && y != x && y !in s[x].path
  {
  }

  lemma CopyIsApart(c: Copying, x: Id, y: Id)
    requires c.target in c.s && c.MapsPath(x) && x in c.idMap && c.CopyOf(x).Some?
    requires y != NO_ID && y != c.target && y !in c.s[c.target].path && forall z | z in c.idMap :: c.idMap[z] != y
    ensures !Mentions(Stored(c.CopyOf(x).value), y)
  {
    CopyFields(c, x);
    hide Copying.CopyOf, Copying.NewPath, Copying.MapsPath;
    if y in c.NewPath(x) { PathUses(c, x, y); }
  }

  lemma NotMentioned(c: Copying, t: Drives, x: Id, y: Id)
    requires c.Ready() && HoldsCopies(c, t) && Unused(c.s, y) && forall z | z in c.idMap :: c.idMap[z] != y
    requires x in c.idMap && c.idMap[x] in t
    ensures !Mentions(t[c.idMap[x]], y)
  {
    hide *;
    StoredCopy(c, t, x);
    UnusedIsApart(c.s, y, c.target);
    CopyIsApart(c, x, y);
  }

  lemma StillFresh(c: Copying, copies: seq<CopyNode>, moreIds: nat -> Id)
    requires c.Ready() && IsCopies(c, copies) && FreshIds(c.s, moreIds)
    requires forall i, x | x in c.idMap :: moreIds(i) != c.idMap[x]
    ensures FreshIds(Inserted(c.s, copies), moreIds)
  {
    InsertedHoldsCopies(c, copies);
    hide Copying.Ready, IsCopies, Inserted, Unused, HoldsCopies;
    forall i ensures Unused(Inserted(c.s, copies), moreIds(i)) {
      StaysUnused(c, Inserted(c.s, copies), moreIds(i));
    }
  }

  /** The collection after a file was copied: its copy is there, the requester's, with a file that has no record. */
  lemma FileCopied(c: Copying, newIds: nat -> Id)
    requires c.Ready() && c.idMap == IdMap(Subtree(c.s, c.id), newIds) && c.s[c.id].kind.File?
    requires c.s[c.id].fileId.Some? && c.s[c.id].fileId.value in c.files
    ensures Subtree(c.s, c.id) == [c.id] && IsCopies(c, CopiesOf(c)) && CopiesOf(c) != []
    ensures var t, y := Inserted(c.s, CopiesOf(c)), newIds(0);
      && c.id in c.idMap && c.idMap[c.id] == y && Live(t, y) && t[y].kind.File? && t[y].parent.Some?
      && t[y].managerId == c.requester.id && t[y].fileId == Some(c.newUri(c.id))
    ensures forall x | x in c.idMap :: c.idMap[x] == newIds(0)
  {
    assert PlaceOk(c.s, c.id);
    IdMapGives([c.id], newIds, 0);
    CollectedAreCopies(c);
    NothingCopiedIff(c);
    InsertedHoldsCopies(c, CopiesOf(c));
    MapsEveryPath(c, c.id);
  }

  /** A file is copied, and then the copy: the second call throws, wherever it is to go. */
  method CopyAgain(store: DriveStore, requester: User, driveId: Id, targetParentId: Id, secondTarget: Id,
                   files: set<string>, newIds: nat -> Id, moreIds: nat -> Id, newUri: Id -> string)
    returns (first: Result<seq<CopyNode>, Error>, second: Result<seq<CopyNode>, Error>)
    requires Copyable(store.drives) && FreshIds(store.drives, newIds) && FreshIds(store.drives, moreIds)
    requires forall i, j :: newIds(i) != moreIds(j)
    requires MayCopy(store.drives, requester, driveId, targetParentId) && store.drives[driveId].kind.File?
    requires store.drives[driveId].fileId.Some? && store.drives[driveId].fileId.value in files
    requires newUri(driveId) !in files
    requires Live(store.drives, secondTarget) && MayWrite(store.drives[secondTarget], requester)
    modifies store`drives
    ensures first.Ok? && second == Err(EmptyInsert)
  {
    ghost var c := TheCopying(store.drives, requester, driveId, targetParentId, files, newIds, newUri);
    hide Copyable, FreshIds, Copying.Ready, IsCopies, CopiesOf, Inserted, IdMap, Subtree, MayRead, MayWrite;
    first := CopyDrive(store, Some(requester), driveId, targetParentId, files, true, newIds, newUri);
    FileCopied(c, newIds);
    StillFresh(c, CopiesOf(c), moreIds);
    OldNodeStays(c, secondTarget);
    ghost var d := TheCopying(store.drives, requester, newIds(0), secondTarget, files, moreIds, newUri);
    second := CopyDrive(store, Some(requester), newIds(0), secondTarget, files, true, moreIds, newUri);
    NothingCopiedIff(d);
  }

  lemma OldNodeStays(c: Copying, y: Id)
    requires c.Ready() && Live(c.s, y)
    ensures Live(Inserted(c.s, CopiesOf(c)), y) && Inserted(c.s, CopiesOf(c))[y] == c.s[y]
  {
    CollectedAreCopies(c);
    InsertedHoldsCopies(c, CopiesOf(c));
  }

  /** The loop over the nodes found. */
  method CopyNodes(c: Copying, driveIds: seq<Id>) returns (newDrivesForDatabase: seq<CopyNode>)
    requires c.Ready() && driveIds == Subtree(c.s, c.id)
    ensures newDrivesForDatabase == CopiesOf(c)
  {
    hide Walkable, Subtree, Copying.CopyOf, Copying.MapsPath, Collect, Unused;
    newDrivesForDatabase := [];
    NothingCollected(c);
    for k := 0 to |driveIds|
      invariant newDrivesForDatabase == Collect(driveIds[..k], Copier(c))
    {
      assert driveIds[k] in c.idMap;
      MapsEveryPath(c, driveIds[k]);
      CollectPush(c, driveIds, k);
      match c.CopyOf(driveIds[k])
      case None =>
      case Some(newNode) => newDrivesForDatabase := newDrivesForDatabase + [newNode];
    }
    assert driveIds[..|driveIds|] == driveIds;
  }

  lemma EmptyIdMap(newIds: nat -> Id)
    ensures IdMap([], newIds) == map[]
  {
  }

  lemma IdMapPush(ids: seq<Id>, newIds: nat -> Id, k: nat)
    requires k < |ids|
    ensures IdMap(ids[..k + 1], newIds) == IdMap(ids[..k], newIds)[ids[k] := newIds(k)]
  {
    assert ids[..k + 1][..k] == ids[..k];
  }

  lemma NothingCollected(c: Copying)
    ensures Collect([], Copier(c)) == []
  {
  }

  lemma CollectPush(c: Copying, ids: seq<Id>, k: nat)
    requires k < |ids| && c.target in c.s && c.MapsPath(ids[k]) && ids[k] in c.idMap
    ensures Collect(ids[..k + 1], Copier(c))
         == Collect(ids[..k], Copier(c)) + match c.CopyOf(ids[k]) case Some(n) => [n] case None => []
  {
    assert ids[..k + 1] == ids[..k] + [ids[k]];
    CollectConcat(ids[..k], [ids[k]], Copier(c));
    assert Collect([ids[k]][1..], Copier(c)) == [];
  }
}
