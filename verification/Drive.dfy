/** The drive tree of `driveCore.ts`: every node stores its place three ways, as `parent`, in the parent's
    `children`, and as `path`. Here is what the operations do to the collection, as functions. */
module Drive {
  import opened Sequences

  type Id = string

  datatype Permission = Permission(iid: string, canRead: bool, canWrite: bool, canDelete: bool)

  datatype Kind = Folder | File

  datatype Node = Node(managerId: string, path: seq<Id>, restricted: bool, name: string, description: string,
                       fileId: Option<string>, kind: Kind, parent: Option<Id>, children: seq<Id>,
                       sharedUsers: seq<Permission>, deletedTime: Option<int>)

  type Drives = map<Id, Node>

  datatype User = User(id: string, isAdmin: bool)

  datatype Error = NotLoggedIn | NoPermission | NonExistent | Malformed | UploadFailed | EmptyInsert

  predicate Live(s: Drives, id: Id) { id in s && s[id].deletedTime == None }

  // ----- the tree invariant -------------------------------------------------

  ghost predicate PathOk(s: Drives, id: Id)
    requires id in s
  {
    && s[id].path != [] && s[id].path[|s[id].path| - 1] == id
    && Distinct(s[id].path)
    && forall p | p in s[id].path :: p in s
  }

  /** The three representations of the node's place agree. */
  ghost predicate ParentOk(s: Drives, id: Id)
    requires id in s
  {
    match s[id].parent
    case None => s[id].path == [id] && s[id].kind.Folder?
    case Some(p) =>
      && Live(s, p) && s[p].kind.Folder? && id in s[p].children
      && s[id].path == s[p].path + [id]
      && s[id].managerId == s[p].managerId
  }

  ghost predicate ChildrenOk(s: Drives, id: Id)
    requires id in s
  {
    && Distinct(s[id].children)
    && (forall c | c in s[id].children :: c in s && s[c].parent == Some(id))
    && (s[id].kind.File? ==> s[id].children == [])
  }

  predicate IsRoot(s: Drives, userId: string, id: Id) { id in s && s[id].managerId == userId && s[id].parent == None }

  ghost predicate RootsOk(s: Drives) {
    && (forall id | id in s && s[id].parent == None :: s[id].deletedTime == None)
    && forall x, y | x in s && y in s && s[x].parent == None && s[y].parent == None ::
         s[x].managerId == s[y].managerId ==> x == y
  }

  predicate Siblings(s: Drives, x: Id, y: Id) {
    Live(s, x) && Live(s, y) && x != y && s[x].parent.Some? && s[x].parent == s[y].parent
  }

  ghost predicate FolderNamesOk(s: Drives) {
    forall x, y | Siblings(s, x, y) && s[x].kind.Folder? && s[y].kind.Folder? :: s[x].name != s[y].name
  }

  /** The path ends at the node and extends the parent's, and the live nodes it lists are its children. */
  ghost predicate PlaceOk(s: Drives, id: Id)
    requires id in s
  {
    && s[id].path != [] && s[id].path[|s[id].path| - 1] == id && Distinct(s[id].path)
    && (s[id].parent.Some? && s[id].parent.value in s ==> s[id].path == s[s[id].parent.value].path + [id])
    && (s[id].kind.File? ==> s[id].children == [])
    && (forall c | c in s[id].children && Live(s, c) :: s[c].parent == Some(id))
    && forall i, j | 0 <= i < j < |s[id].children| && Live(s, s[id].children[i]) ::
         s[id].children[i] != s[id].children[j]
  }

  /** What the walk needs. A parent need not list its child. */
  ghost predicate Walkable(s: Drives) { forall id | Live(s, id) :: PlaceOk(s, id) }

  /** What every operation but the copy keeps. */
  ghost predicate Tree(s: Drives): (tree: bool)
    ensures tree ==> Walkable(s)
  {
    && (forall id | Live(s, id) :: PathOk(s, id) && ParentOk(s, id) && ChildrenOk(s, id))
    && RootsOk(s)
    && FolderNamesOk(s)
  }

  // ----- paths --------------------------------------------------------------

  /** A prefix of a live node's path is the path of a live node. */
  lemma {:induction false} AncestorPath(s: Drives, x: Id, k: nat)
    requires Tree(s) && Live(s, x) && k < |s[x].path|
    ensures Live(s, s[x].path[k]) && s[s[x].path[k]].path == s[x].path[..k + 1]
    decreases |s[x].path|
  {
    assert PathOk(s, x) && ParentOk(s, x);
    if k < |s[x].path| - 1 {
      var p := s[x].parent.value;
      AncestorPath(s, p, k);
      assert s[p].path[k] == s[x].path[k] && s[p].path[..k + 1] == s[x].path[..k + 1];
    } else {
      assert s[x].path[..k + 1] == s[x].path;
    }
  }

  /** The node after y on the path of x is a child of y. */
  lemma PathChild(s: Drives, x: Id, k: nat)
    requires Tree(s) && Live(s, x) && k + 1 < |s[x].path|
    ensures Live(s, s[x].path[k]) && s[s[x].path[k]].kind.Folder?
    ensures Live(s, s[x].path[k + 1]) && s[x].path[k + 1] in s[s[x].path[k]].children
  {
    AncestorPath(s, x, k);
    AncestorPath(s, x, k + 1);
    var y, c := s[x].path[k], s[x].path[k + 1];
    assert PathOk(s, c) && ParentOk(s, c) && |s[c].path| == k + 2;
    assert PathOk(s, s[c].parent.value);
    assert s[c].path[k] == y;
  }

  /** The nodes below a node have its manager. */
  lemma {:induction false} OneManager(s: Drives, x: Id, k: nat)
    requires Tree(s) && Live(s, x) && k < |s[x].path|
    ensures s[x].path[k] in s && s[s[x].path[k]].managerId == s[x].managerId
    decreases |s[x].path|
  {
    assert PathOk(s, x) && ParentOk(s, x);
    if k < |s[x].path| - 1 { OneManager(s, s[x].parent.value, k); }
  }

  // ----- the walk -----------------------------------------------------------

  /** No path is longer. */
  ghost function Deepest(s: Drives): (n: nat)
    ensures forall x | x in s :: |s[x].path| <= n
    decreases |s|
  {
    if s == map[] then 0
    else
      var x :| x in s;
      var rest := s - {x};
      assert rest.Keys == s.Keys - {x};
      var n := Deepest(rest);
      assert forall y | y in s && y != x :: y in rest && |rest[y].path| <= n;
      if n >= |s[x].path| then n else |s[x].path|
  }

  ghost function Room(s: Drives, id: Id): nat
    requires Live(s, id)
  {
    Deepest(s) - |s[id].path|
  }

  /** A listed live node is one step further from the root. */
  lemma ListedPath(s: Drives, id: Id, c: Id)
    requires Walkable(s) && Live(s, id) && c in s[id].children && Live(s, c)
    ensures s[id].kind.Folder? && s[c].parent == Some(id) && s[c].path == s[id].path + [c]
    ensures Room(s, c) < Room(s, id)
  {
    assert PlaceOk(s, id) && PlaceOk(s, c);
  }

  /** recursiveFindDrives: the node and, below a folder, the live nodes its children lists lead to. */
  ghost function Subtree(s: Drives, id: Id): seq<Id>
    requires Walkable(s) && Live(s, id)
    decreases Room(s, id), |s[id].children| + 1
  {
    [id] + if s[id].kind.Folder? then Below(s, id, s[id].children) else []
  }

  ghost function Below(s: Drives, id: Id, children: seq<Id>): seq<Id>
    requires Walkable(s) && Live(s, id) && forall c | c in children :: c in s[id].children
    decreases Room(s, id), |children|
  {
    if children == [] then []
    else
      var rest := Below(s, id, children[1..]);
      if Live(s, children[0]) then
        ListedPath(s, id, children[0]);
        Subtree(s, children[0]) + rest
      else rest
  }

  /** The nodes found lie below the node on every path, and so does everything between. */
  ghost predicate FoundBelow(s: Drives, id: Id, x: Id)
    requires Live(s, id)
  {
    Live(s, x) && |s[id].path| <= |s[x].path| && s[x].path[..|s[id].path|] == s[id].path
  }

  lemma {:induction false} SubtreeIsBelow(s: Drives, id: Id, x: Id)
    requires Walkable(s) && Live(s, id) && x in Subtree(s, id)
    ensures FoundBelow(s, id, x)
    decreases Room(s, id), |s[id].children| + 1
  {
    if x != id { var c := BelowIsBelow(s, id, s[id].children, x); }
  }

  lemma {:induction false} BelowIsBelow(s: Drives, id: Id, children: seq<Id>, x: Id) returns (c: Id)
    requires Walkable(s) && Live(s, id) && forall c | c in children :: c in s[id].children
    requires x in Below(s, id, children)
    ensures c in children && Live(s, c) && x in Subtree(s, c) && Room(s, c) < Room(s, id)
    ensures FoundBelow(s, id, x) && |s[id].path| < |s[x].path| && s[x].path[|s[id].path|] == c
    decreases Room(s, id), |children|
  {
    c := children[0];
    if Live(s, c) && x in Subtree(s, c) {
      ListedPath(s, id, c);
      SubtreeIsBelow(s, c, x);
      assert s[x].path[|s[id].path|] == s[x].path[..|s[c].path|][|s[id].path|] == c;
      assert s[x].path[..|s[id].path|] == s[x].path[..|s[c].path|][..|s[id].path|];
    } else {
      c := BelowIsBelow(s, id, children[1..], x);
    }
  }

  lemma SubtreeOnPath(s: Drives, id: Id, x: Id)
    requires Walkable(s) && Live(s, id) && x in Subtree(s, id)
    ensures Live(s, x) && id in s[x].path
  {
    SubtreeIsBelow(s, id, x);
    assert PlaceOk(s, id);
    assert s[x].path[|s[id].path| - 1] == s[x].path[..|s[id].path|][|s[id].path| - 1];
  }

  lemma {:induction false} PathInSubtree(s: Drives, x: Id, k: nat)
    requires Tree(s) && Live(s, x) && k < |s[x].path|
    ensures Live(s, s[x].path[k]) && x in Subtree(s, s[x].path[k])
    decreases |s[x].path| - k
  {
    AncestorPath(s, x, k);
    assert PathOk(s, x);
    if k + 1 < |s[x].path| {
      PathChild(s, x, k);
      PathInSubtree(s, x, k + 1);
      BelowHasChild(s, s[x].path[k], s[s[x].path[k]].children, s[x].path[k + 1], x);
    }
  }

  lemma {:induction false} BelowHasChild(s: Drives, id: Id, children: seq<Id>, c: Id, x: Id)
    requires Walkable(s) && Live(s, id) && forall d | d in children :: d in s[id].children
    requires c in children && Live(s, c) && x in Subtree(s, c)
    ensures x in Below(s, id, children)
    decreases |children|
  {
    if c != children[0] { BelowHasChild(s, id, children[1..], c, x); }
  }

  /** The walk over `children` finds exactly the live nodes whose `path` contains the node. */
  lemma WalkAgreesWithPath(s: Drives, id: Id, x: Id)
    requires Tree(s) && Live(s, id)
    ensures x in Subtree(s, id) <==> Live(s, x) && id in s[x].path
  {
    if x in Subtree(s, id) { SubtreeOnPath(s, id, x); }
    if Live(s, x) && id in s[x].path {
      var k :| 0 <= k < |s[x].path| && s[x].path[k] == id;
      PathInSubtree(s, x, k);
    }
  }

  /** It visits no node twice. */
  lemma {:induction false} WalkVisitsOnce(s: Drives, id: Id)
    requires Walkable(s) && Live(s, id)
    ensures Distinct(Subtree(s, id))
    decreases Room(s, id), |s[id].children| + 1
  {
    assert PlaceOk(s, id);
    BelowVisitsOnce(s, id, s[id].children);
    var below := Below(s, id, s[id].children);
    forall i | 0 <= i < |below| ensures below[i] != id { var c := BelowIsBelow(s, id, s[id].children, below[i]); }
  }

  lemma {:induction false} BelowVisitsOnce(s: Drives, id: Id, children: seq<Id>)
    requires Walkable(s) && Live(s, id) && forall c | c in children :: c in s[id].children
    requires forall i, j | 0 <= i < j < |children| && Live(s, children[i]) :: children[i] != children[j]
    ensures Distinct(Below(s, id, children))
    decreases Room(s, id), |children|
  {
    if children != [] {
      var c, rest := children[0], children[1..];
      BelowVisitsOnce(s, id, rest);
      if Live(s, c) {
        ListedPath(s, id, c);
        WalkVisitsOnce(s, c);
        forall x | x in Subtree(s, c) ensures x !in Below(s, id, rest) {
          SubtreeIsBelow(s, c, x);
          assert s[x].path[|s[id].path|] == s[x].path[..|s[c].path|][|s[id].path|] == c;
          if x in Below(s, id, rest) { var d := BelowIsBelow(s, id, rest, x); }
        }
        DistinctAppend(Subtree(s, c), Below(s, id, rest));
      }
    }
  }
}
