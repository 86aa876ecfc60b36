/** What a copy on the drive collection answers and leaves, said of the nodes' fields and the new ids alone. */
module CopyCalls {
  import opened Sequences
  import opened Documents
  import opened Drive
  import opened DriveHistory
  import opened DriveCalls
  import opened DriveCopy

  /** The node is live and no root, its manager or a user who may read it asks, and who asks may write to the target. */
  ghost predicate MayBeCopied(s: Drives, u: User, id: Id, target: Id) {
    && id in s && s[id].deletedTime == None && s[id].parent != None
    && (s[id].managerId == u.id
        || exists i :: 0 <= i < |s[id].sharedUsers| && s[id].sharedUsers[i].iid == u.id && s[id].sharedUsers[i].canRead)
    && target in s && s[target].deletedTime == None && MayAdd(s[target], u)
  }

  lemma MayCopyIff(s: Drives, u: User, id: Id, target: Id)
    ensures MayCopy(s, u, id, target) <==> MayBeCopied(s, u, id, target)
  {
    if target in s { MayAddIff(s[target], u); }
    hide MayAdd, MayWrite;
  }

  /** The requester's own copy of the k-th node of the walk: unprotected, shared with nobody, and with the original's
      name, description and kind; a file points to a new object. */
  ghost predicate IsOwnCopy(o: Node, n: Node, u: User, uri: string) {
    && n.managerId == u.id && n.name == o.name && n.description == o.description && n.kind == o.kind
    && !n.restricted && n.sharedUsers == [] && n.deletedTime == None
    && n.fileId == if o.fileId.Some? then Some(uri) else None
  }

  /** It stands below the target, or below the copy of the original's parent, and lists the new ids of the original's
      children, with no id where a child is none of the walk's nodes. */
  ghost predicate IsLinked(o: Node, n: Node, walk: seq<Id>, k: nat, target: Id, newIds: nat -> Id) {
    && (k == 0 ==> n.parent == Some(target))
    && (forall j: nat | 0 < k && j < |walk| && o.parent == Some(walk[j]) :: n.parent == Some(newIds(j)))
    && |n.children| == |o.children|
    && (forall j: nat, i | j < |walk| && 0 <= i < |o.children| && o.children[i] == walk[j] ::
          n.children[i] == newIds(j))
    && forall i | 0 <= i < |o.children| && o.children[i] !in walk :: n.children[i] == NO_ID
  }

  /** Its path is the target's path and the new ids of the original's path from the copied node on. */
  ghost predicate IsPlaced(above: seq<Id>, depth: nat, o: Node, n: Node, walk: seq<Id>, newIds: nat -> Id) {
    && |n.path| == |above| + |o.path| - depth && above <= n.path
    && forall i, j: nat | depth <= i < |o.path| && j < |walk| && o.path[i] == walk[j] ::
         n.path[|above| + i - depth] == newIds(j)
  }

  /** The node has no file, or one with a record. */
  ghost predicate IsKept(o: Node, files: set<string>) { o.fileId.Some? ==> o.fileId.value in files }

  ghost predicate IsCopyAt(s: Drives, t: Drives, u: User, id: Id, target: Id, files: set<string>, walk: seq<Id>,
                           newIds: nat -> Id, newUri: Id -> string, k: nat)
    requires k < |walk|
  {
    && walk[k] in s && id in s && target in s && s[id].path != []
    && (newIds(k) in t <==> IsKept(s[walk[k]], files))
    && (newIds(k) in t ==>
          && IsOwnCopy(s[walk[k]], t[newIds(k)], u, newUri(walk[k]))
          && IsLinked(s[walk[k]], t[newIds(k)], walk, k, target, newIds)
          && IsPlaced(s[target].path, |s[id].path| - 1, s[walk[k]], t[newIds(k)], walk, newIds))
  }

  /** Every node found is copied but the files without a record, and nothing else changes. */
  ghost predicate CopyLeaves(s: Drives, t: Drives, u: User, id: Id, target: Id, files: set<string>, walk: seq<Id>,
                             newIds: nat -> Id, newUri: Id -> string) {
    && (forall y | y in s :: y in t && t[y] == s[y])
    && (forall k: nat | k < |walk| :: IsCopyAt(s, t, u, id, target, files, walk, newIds, newUri, k))
    && forall y | y in t && y !in s :: exists k: nat :: k < |walk| && y == newIds(k)
  }

  lemma NewIdsAre(s: Drives, id: Id, newIds: nat -> Id)
    requires Walkable(s) && Live(s, id)
    ensures var walk := Subtree(s, id);
      && walk != [] && walk[0] == id && Distinct(walk)
      && forall k: nat | k < |walk| :: walk[k] in IdMap(walk, newIds) && IdMap(walk, newIds)[walk[k]] == newIds(k)
  {
    var walk := Subtree(s, id);
    assert walk != [] && walk[0] == id;
    WalkVisitsOnce(s, id);
    hide Subtree, IdMap;
    forall k: nat | k < |walk| ensures walk[k] in IdMap(walk, newIds) && IdMap(walk, newIds)[walk[k]] == newIds(k) {
      IdMapGives(walk, newIds, k);
    }
  }

  ghost predicate Given(c: Copying, walk: seq<Id>, newIds: nat -> Id) {
    && walk != [] && walk[0] == c.id && Distinct(walk)
    && (forall x :: x in c.idMap <==> x in walk)
    && forall k: nat | k < |walk| :: walk[k] in c.idMap && c.idMap[walk[k]] == newIds(k)
  }

  lemma CopyFields(c: Copying, x: Id, n: CopyNode)
    requires c.target in c.s && c.MapsPath(x) && x in c.idMap && c.CopyOf(x) == Some(n)
    ensures IsOwnCopy(c.s[x], Stored(n), c.requester, c.newUri(x))
  {
    hide Copying.MapsPath, Copying.NewPath;
  }

  lemma CopyLinks(c: Copying, walk: seq<Id>, newIds: nat -> Id, k: nat, n: CopyNode)
    requires Given(c, walk, newIds) && k < |walk| && c.target in c.s && c.MapsPath(walk[k])
    requires c.CopyOf(walk[k]) == Some(n) && c.s[walk[k]].parent.Some?
    requires c.s[walk[k]].parent.value in c.idMap <==> walk[k] != c.id
    ensures IsLinked(c.s[walk[k]], Stored(n), walk, k, c.target, newIds)
  {
    var o := c.s[walk[k]];
    hide Copying.MapsPath, Copying.NewPath;
    assert forall i | 0 <= i < |o.children| :: n.children[i] == c.MapChild()(o.children[i]);
    assert k > 0 ==> walk[k] != walk[0];
  }

  lemma CopyIsPlaced(c: Copying, walk: seq<Id>, newIds: nat -> Id, x: Id, n: CopyNode, depth: nat)
    requires Given(c, walk, newIds) && x in c.idMap && c.target in c.s && c.MapsPath(x) && c.CopyOf(x) == Some(n)
    requires c.id in c.s[x].path && depth == IndexOf(c.s[x].path, c.id)
    ensures IsPlaced(c.s[c.target].path, depth, c.s[x], Stored(n), walk, newIds)
  {
    var tail := c.s[x].path[depth..];
    assert Stored(n).path == c.s[c.target].path + MapIds(c.idMap, tail);
    hide IndexOf, Copying.CopyOf, Copying.MapsPath, Stored;
    assert forall i | 0 <= i < |tail| :: MapIds(c.idMap, tail)[i] == c.idMap[tail[i]];
  }

  lemma CopyIsStored(c: Copying, t: Drives, walk: seq<Id>, newIds: nat -> Id, k: nat)
    requires c.Ready() && HoldsCopies(c, t) && Given(c, walk, newIds) && k < |walk| && walk == Subtree(c.s, c.id)
    ensures IsCopyAt(c.s, t, c.requester, c.id, c.target, c.files, walk, newIds, c.newUri, k)
  {
    var x := walk[k];
    assert x in c.idMap && HoldsCopy(c, t, x);
    MapsEveryPath(c, x);
    IndexOnPath(c.s, c.id, x);
    assert PlaceOk(c.s, c.id);
    assert c.CopyOf(x).Some? <==> IsKept(c.s[x], c.files);
    if c.CopyOf(x).Some? {
      var n := c.CopyOf(x).value;
      CopyFields(c, x, n);
      CopyLinks(c, walk, newIds, k, n);
      CopyIsPlaced(c, walk, newIds, x, n, |c.s[c.id].path| - 1);
    }
    hide Walkable, Subtree, Stored, Copying.Ready, Copying.CopyOf, Copying.MapsPath, IsOwnCopy, IsLinked, IsPlaced;
  }

  lemma WalkIsGiven(c: Copying, newIds: nat -> Id)
    requires c.Ready() && c.idMap == IdMap(Subtree(c.s, c.id), newIds)
    ensures Given(c, Subtree(c.s, c.id), newIds)
  {
    NewIdsAre(c.s, c.id, newIds);
    hide Walkable, Subtree, Unused, Copying.OneIdEach, IdMap, Distinct;
  }

  lemma HeldIsLeft(c: Copying, t: Drives, walk: seq<Id>, newIds: nat -> Id)
    requires c.Ready() && HoldsCopies(c, t) && Given(c, walk, newIds) && walk == Subtree(c.s, c.id)
    ensures CopyLeaves(c.s, t, c.requester, c.id, c.target, c.files, walk, newIds, c.newUri)
  {
    hide Subtree, Copying.Ready, HoldsCopy, Given, IsCopyAt;
    forall k: nat | k < |walk|
      ensures IsCopyAt(c.s, t, c.requester, c.id, c.target, c.files, walk, newIds, c.newUri, k)
    {
      CopyIsStored(c, t, walk, newIds, k);
    }
    forall y | y in t && y !in c.s ensures exists k: nat :: k < |walk| && y == newIds(k) {
      var x :| x in c.idMap && c.idMap[x] == y;
      FoundAt(c, walk, newIds, x);
    }
  }

  lemma StoredIsCopyCall(c: Copying, newIds: nat -> Id)
    requires c.Ready() && c.idMap == IdMap(Subtree(c.s, c.id), newIds)
    ensures CopyLeaves(c.s, Inserted(c.s, CopiesOf(c)), c.requester, c.id, c.target, c.files, Subtree(c.s, c.id),
                       newIds, c.newUri)
  {
    assert Walkable(c.s) && Live(c.s, c.id);
    hide *;
    WalkIsGiven(c, newIds);
    CollectedAreCopies(c);
    InsertedHoldsCopies(c, CopiesOf(c));
    HeldIsLeft(c, Inserted(c.s, CopiesOf(c)), Subtree(c.s, c.id), newIds);
  }

  lemma FoundAt(c: Copying, walk: seq<Id>, newIds: nat -> Id, x: Id)
    requires Given(c, walk, newIds) && x in c.idMap
    ensures exists k: nat :: k < |walk| && c.idMap[x] == newIds(k)
  {
    var k: nat :| k < |walk| && walk[k] == x;
  }

  /** What a copy leaves that is not refused for its rights or the size of the files. */
  lemma CopyCall(s: Drives, u: User, id: Id, target: Id, files: set<string>, newIds: nat -> Id, newUri: Id -> string)
    requires Copyable(s) && FreshIds(s, newIds) && MayCopy(s, u, id, target)
    ensures var c := TheCopying(s, u, id, target, files, newIds, newUri);
            CopyLeaves(s, Inserted(s, CopiesOf(c)), u, id, target, files, Subtree(s, id), newIds, newUri)
  {
    var c := TheCopying(s, u, id, target, files, newIds, newUri);
    hide Walkable, Subtree, Unused, IdMap, Inserted, CopyLeaves;
    CopyingIsReady(c, newIds);
    hide *;
    StoredIsCopyCall(c, newIds);
  }
}
