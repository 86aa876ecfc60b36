/** Moving a node with `editDrive`. The invariant of the other operations does not survive it, so it is not one of
    the actions of `DriveHistory`. */
module DriveMove {
  import opened Sequences
  import opened Drive
  import opened DriveHistory

  /** The path from the id on; nothing where the id is not on it. */
  function FromId(path: seq<Id>, id: Id): seq<Id> { if id in path then path[IndexOf(path, id)..] else [] }

  /** The node gets the parent and a path below it, and the parent gets one more child. */
  function Moved(s: Drives, id: Id, parent: Id): Drives
    requires id in s && parent in s
  {
    var t := PushChild(s[id := s[id].(parent := Some(parent))], parent, id);
    t[id := t[id].(path := s[parent].path + FromId(s[id].path, id))]
  }

  /** editDrive when only a parent is given. */
  function MoveResult(s: Drives, requester: Option<User>, id: Id, parentId: Id): Result<Drives, Error> {
    if requester == None then Err(NotLoggedIn)
    else if !Live(s, id) then Err(NoPermission)
    else if !requester.value.isAdmin && s[id].managerId != requester.value.id then Err(NoPermission)
    else if parentId == "" then Err(Malformed)
    else if !Live(s, parentId) then Err(NonExistent)
    else Ok(Moved(s, id, parentId))
  }

  /** The call is answered by what it finds in this order: the requester, the node, who manages it, the id of the parent
      and the parent. Where it moves the node, every other node stays but for one more child of the parent. */
  lemma MoveAnswer(s: Drives, requester: Option<User>, id: Id, parentId: Id, x: Id)
    ensures var r := MoveResult(s, requester, id, parentId);
            var may := requester.Some? && Live(s, id)
                       && (requester.value.isAdmin || requester.value.id == s[id].managerId);
      && (r == Err(NotLoggedIn) <==> requester == None)
      && (r == Err(NoPermission) <==> requester.Some? && !may)
      && (r == Err(Malformed) <==> may && parentId == "")
      && (r == Err(NonExistent) <==> may && parentId != "" && !Live(s, parentId))
      && (r.Ok? <==> may && parentId != "" && Live(s, parentId))
    ensures var r := MoveResult(s, requester, id, parentId);
      r.Ok? ==> (x in r.value <==> x in s)
    ensures var r := MoveResult(s, requester, id, parentId);
      r.Ok? && x in s && x != id ==>
        r.value[x] == if x == parentId then s[x].(children := s[x].children + [id]) else s[x]
  {
  }

  /** A node with the path of a root is the root of its manager. */
  lemma TopIsRoot(s: Drives, x: Id)
    requires Tree(s) && Live(s, x)
    ensures s[x].path != [] && IsRoot(s, s[x].managerId, s[x].path[0])
  {
    assert PathOk(s, x);
    AncestorPath(s, x, 0);
    OneManager(s, x, 0);
    var r := s[x].path[0];
    assert PathOk(s, r) && ParentOk(s, r);
    assert forall p | Live(s, p) :: s[p].path != [] by { assert forall p | Live(s, p) :: PathOk(s, p); }
  }

  /** No move keeps the tree. The old parent keeps the moved node in its list, so that the walk from there still finds
      it; and a root comes to lie below itself or below another manager's node. */
  lemma MoveBreaksTree(s: Drives, requester: Option<User>, id: Id, parentId: Id)
    requires Tree(s) && MoveResult(s, requester, id, parentId).Ok?
    ensures var t := MoveResult(s, requester, id, parentId).value;
      && Live(t, id) && id in t[parentId].children && t[id].parent == Some(parentId) && !Tree(t)
    ensures var t, q := MoveResult(s, requester, id, parentId).value, s[id].parent;
      q.Some? ==> Live(t, q.value) && id in t[q.value].children
  {
    hide Tree;
    if s[id].parent.Some? { ChildMoveBreaksTree(s, id, parentId); } else { RootMoveBreaksTree(s, id, parentId); }
  }

  lemma ChildMoveBreaksTree(s: Drives, id: Id, parentId: Id)
    requires Tree(s) && Live(s, id) && Live(s, parentId) && s[id].parent.Some?
    ensures var t, q := Moved(s, id, parentId), s[id].parent.value;
            Live(t, q) && id in t[q].children && !Tree(t)
  {
    assert ParentOk(s, id) && PathOk(s, id);
    hide PathOk, ParentOk, RootsOk, FolderNamesOk, FromId, PlaceOk;
    var t, q := Moved(s, id, parentId), s[id].parent.value;
    assert Live(t, q) && id in t[q].children && t[id].parent == Some(parentId);
    if q == parentId {
      var n := t[q].children;
      var i :| 0 <= i < |s[q].children| && s[q].children[i] == id;
      assert n[i] == id == n[|n| - 1];
    }
    assert !ChildrenOk(t, q);
  }

  lemma RootMoveBreaksTree(s: Drives, id: Id, parentId: Id)
    requires Tree(s) && Live(s, id) && Live(s, parentId) && s[id].parent == None
    ensures !Tree(Moved(s, id, parentId))
  {
    var t := Moved(s, id, parentId);
    assert ParentOk(s, id) && PathOk(s, id);
    TailIsId(s[id].path, id);
    TopIsRoot(s, parentId);
    assert Live(t, id) && t[id].path == s[parentId].path + [id] && t[id].managerId == s[id].managerId;
    if s[parentId].managerId == s[id].managerId {
      assert s[parentId].path[0] == id;
      assert t[id].path[0] == id == t[id].path[|t[id].path| - 1];
      assert !PathOk(t, id);
    } else {
      assert !ParentOk(t, id);
    }
  }

  lemma BelowPaths(s: Drives, id: Id)
    requires Tree(s) && Live(s, id)
    ensures s[id].path != [] && s[id].path[|s[id].path| - 1] == id && Distinct(s[id].path)
    ensures forall x | Live(s, x) && s[x].parent == Some(id) :: x != id && s[x].path == s[id].path + [x]
  {
    assert PathOk(s, id);
    forall x | Live(s, x) && s[x].parent == Some(id) ensures x != id && s[x].path == s[id].path + [x] {
      assert ParentOk(s, x);
      assert |s[x].path| == |s[s[x].parent.value].path| + 1;
    }
  }

  lemma MoveKeepsBelow(s: Drives, requester: Option<User>, id: Id, parentId: Id)
    requires Tree(s) && MoveResult(s, requester, id, parentId).Ok?
    ensures var t := MoveResult(s, requester, id, parentId).value;
      && id in t && t[id].path == s[parentId].path + [id]
      && (forall x | Live(s, x) && s[x].parent == Some(id) ::
            x != id && Live(t, x) && t[x].parent == Some(id) && t[x].path == s[id].path + [x])
      && forall x | Live(t, x) && t[x].parent == Some(id) && x != id :: Live(s, x) && s[x].parent == Some(id)
  {
    hide Tree, FromId, Distinct;
    BelowPaths(s, id);
    TailIsId(s[id].path, id);
  }

  /** Only the moved node's own path changes: the paths of the nodes below it fit exactly when there are none, or
      the move leaves its path as it was. */
  lemma PathsFitIff(s: Drives, requester: Option<User>, id: Id, parentId: Id)
    requires Tree(s) && MoveResult(s, requester, id, parentId).Ok?
    ensures var t := MoveResult(s, requester, id, parentId).value;
      (forall x | Live(t, x) && t[x].parent == Some(id) && x != id :: t[x].path == t[id].path + [x])
      <==> (forall x | Live(s, x) && s[x].parent == Some(id) :: false) || s[parentId].path + [id] == s[id].path
  {
    var t := MoveResult(s, requester, id, parentId).value;
    MoveKeepsBelow(s, requester, id, parentId);
    hide Tree, MoveResult;
    if x :| Live(s, x) && s[x].parent == Some(id) {
      assert (s[id].path + [x])[..|s[id].path|] == s[id].path;
      assert (t[id].path + [x])[..|t[id].path|] == t[id].path;
    }
  }

  lemma TailIsId(path: seq<Id>, id: Id)
    requires path != [] && path[|path| - 1] == id && Distinct(path)
    ensures FromId(path, id) == [id]
  {
    assert id in path;
  }

  /** A folder can be moved below itself; the walk from it would then not end. */
  lemma MoveMakesCycle()
    ensures var s := After(NestedRun(false));
      && MoveResult(s, Owner(), "a", "b").Ok?
      && var t := MoveResult(s, Owner(), "a", "b").value;
         Live(t, "a") && Live(t, "b") && "b" in t["a"].children && "a" in t["b"].children
  {
    Nested(false);
    hide After, Tree;
  }
}
