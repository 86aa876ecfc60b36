/** The operations on the drive collection as functions of it, and what runs of them keep. */
module DriveHistory {
  import opened Sequences
  import opened Drive

  // ----- operations ---------------------------------------------------------

  /** The node with one more id in its children. */
  function PushChild(s: Drives, parent: Id, child: Id): Drives
    requires parent in s
  {
    s[parent := s[parent].(children := s[parent].children + [child])]
  }

  function Attach(s: Drives, parent: Id, id: Id, node: Node): Drives
    requires parent in s && id != parent
  {
    PushChild(s[id := node], parent, id)
  }

  /** The given nodes get the permissions. */
  function SetShared(s: Drives, ids: seq<Id>, shared: seq<Permission>): Drives {
    map id | id in s :: if id in ids then s[id].(sharedUsers := shared) else s[id]
  }

  function SetDeleted(s: Drives, ids: seq<Id>, time: int): Drives {
    map id | id in s :: if id in ids then s[id].(deletedTime := Some(time)) else s[id]
  }

  function NewRoot(userId: string, id: Id): Node {
    Node(userId, [id], true, "My Drive", "This is your own drive.", None, Folder, None, [], [], None)
  }

  function NewFolder(s: Drives, parent: Id, id: Id, name: string, restricted: bool, description: string): Node
    requires parent in s
  {
    Node(s[parent].managerId, s[parent].path + [id], restricted, name, description, None, Folder,
         Some(parent), [], s[parent].sharedUsers, None)
  }

  function NewFile(s: Drives, parent: Id, id: Id, requester: User, name: string, description: string,
                   fileId: string): Node
    requires parent in s
  {
    Node(requester.id, s[parent].path + [id], false, name, description, Some(fileId), File,
         Some(parent), [], s[parent].sharedUsers, None)
  }

  predicate MayWrite(n: Node, u: User) {
    || n.managerId == u.id
    || exists i | 0 <= i < |n.sharedUsers| :: n.sharedUsers[i].iid == u.id && n.sharedUsers[i].canWrite
  }

  /** The default root of the user, where there is one. */
  ghost function RootOf(s: Drives, userId: string): (r: Option<Id>)
    ensures r.Some? ==> IsRoot(s, userId, r.value)
    ensures r.None? ==> forall id :: !IsRoot(s, userId, id)
  {
    if id :| IsRoot(s, userId, id) then Some(id) else None
  }

  /** No parent id, or the empty one, means the default root. */
  ghost function ParentOf(s: Drives, userId: string, parentId: Option<Id>): (r: Option<Id>)
    ensures r.Some? ==> r.value in s
  {
    if parentId.Some? && parentId.value != "" then
      if Live(s, parentId.value) then parentId else None
    else RootOf(s, userId)
  }

  predicate NameTaken(s: Drives, parent: Option<Id>, name: string) {
    exists id | id in s :: s[id].deletedTime == None && s[id].parent == parent && s[id].name == name
  }

  predicate KindNameTaken(s: Drives, parent: Option<Id>, kind: Kind, name: string) {
    exists id | id in s ::
      s[id].deletedTime == None && s[id].parent == parent && s[id].kind == kind && s[id].name == name
  }

  ghost function FolderResult(s: Drives, requester: Option<User>, name: string, parentId: Option<Id>,
                              restricted: bool, description: string, id: Id): (r: Result<Drives, Error>)
    requires id !in s
  {
    if requester == None then Err(NotLoggedIn)
    else
      match ParentOf(s, requester.value.id, parentId)
      case None => Err(NoPermission)
      case Some(p) =>
        if !MayWrite(s[p], requester.value) then Err(NoPermission)
        else if s[p].kind != Folder then Err(Malformed)
        else if KindNameTaken(s, Some(p), Folder, name) then Err(Malformed)
        else Ok(Attach(s, p, id, NewFolder(s, p, id, name, restricted, description)))
  }

  /** What createDriveFile is given to upload: the stored file's id, or the upload's error. */
  datatype Upload = Upload(filename: string, stored: Result<string, Error>)

  /** Only the manager may upload: the check of the shared users compares a user id with the requester
      object and never holds. The name is looked up under the parent id as it was given. */
  ghost function FileResult(s: Drives, requester: Option<User>, parentId: Option<Id>, description: string,
                            upload: Option<Upload>, id: Id): (r: Result<Drives, Error>)
    requires id !in s
  {
    if requester == None then Err(NotLoggedIn)
    else
      match ParentOf(s, requester.value.id, parentId)
      case None => Err(NoPermission)
      case Some(p) =>
        if s[p].managerId != requester.value.id then Err(NoPermission)
        else if s[p].kind != Folder then Err(Malformed)
        else if upload == None then Err(Malformed)
        else if KindNameTaken(s, parentId, File, upload.value.filename) then Err(Malformed)
        else match upload.value.stored
          case Err(e) => Err(e)
          case Ok(fileId) =>
            Ok(Attach(s, p, id, NewFile(s, p, id, requester.value, upload.value.filename, description, fileId)))
  }

  datatype DriveEdit = DriveEdit(name: Option<string>, description: Option<string>,
                                 sharedUsers: Option<seq<Permission>>)

  predicate Given(text: Option<string>) { text.Some? && text.value != "" }

  function Edited(n: Node, edit: DriveEdit): Node {
    var named := if Given(edit.name) then n.(name := edit.name.value) else n;
    var described := if Given(edit.description) then named.(description := edit.description.value) else named;
    if edit.sharedUsers.Some? then described.(sharedUsers := edit.sharedUsers.value) else described
  }

  predicate AllUsers(shared: seq<Permission>, users: set<string>) {
    forall i | 0 <= i < |shared| :: shared[i].iid in users
  }

  ghost function EditResult(s: Drives, requester: Option<User>, id: Id, edit: DriveEdit,
                            users: set<string>): (r: Result<Drives, Error>)
    requires Tree(s)
  {
    if requester == None then Err(NotLoggedIn)
    else if !Live(s, id) then Err(NoPermission)
    else if !requester.value.isAdmin && s[id].managerId != requester.value.id then Err(NoPermission)
    else if Given(edit.name) && NameTaken(s, s[id].parent, edit.name.value) then Err(Malformed)
    else if edit.sharedUsers.Some? && !AllUsers(edit.sharedUsers.value, users) then Err(NonExistent)
    else if !Given(edit.name) && !Given(edit.description) && edit.sharedUsers.None? then Err(Malformed)
    else
      var t := s[id := Edited(s[id], edit)];
      Ok(if edit.sharedUsers.Some? then SetShared(t, Subtree(s, id), edit.sharedUsers.value) else t)
  }

  ghost function ShareResult(s: Drives, requester: Option<User>, id: Id,
                             shared: seq<Permission>): (r: Result<Drives, Error>)
    requires Tree(s)
  {
    if requester == None then Err(NotLoggedIn)
    else if !Live(s, id) || s[id].managerId != requester.value.id then Err(NoPermission)
    else Ok(SetShared(s, Subtree(s, id), shared))
  }

  ghost function DeleteResult(s: Drives, requester: Option<User>, id: Id, time: int): (r: Result<Drives, Error>)
    requires Tree(s)
  {
    if requester == None then Err(NotLoggedIn)
    else if !Live(s, id) then Err(NonExistent)
    else if s[id].restricted || s[id].parent == None then Err(NoPermission)
    else Ok(SetDeleted(s, Subtree(s, id), time))
  }

  // ----- what each step keeps -----------------------------------------------

  /** The new node goes under a live folder of the same manager. */
  ghost predicate Fits(s: Drives, p: Id, id: Id, node: Node) {
    && Tree(s) && Live(s, p) && s[p].kind.Folder? && id !in s
    && node.path == s[p].path + [id] && node.parent == Some(p) && node.children == [] && node.deletedTime == None
    && node.managerId == s[p].managerId
    && (node.kind.Folder? ==> !KindNameTaken(s, Some(p), Folder, node.name))
  }

  lemma AttachedNode(s: Drives, p: Id, id: Id, node: Node)
    requires Fits(s, p, id, node)
    ensures PathOk(Attach(s, p, id, node), id) && ParentOk(Attach(s, p, id, node), id)
    ensures ChildrenOk(Attach(s, p, id, node), id)
  {
    assert PathOk(s, p);
    hide FolderNamesOk, RootsOk, KindNameTaken, Walkable;
  }

  lemma AttachKeepsNode(s: Drives, p: Id, id: Id, node: Node, x: Id)
    requires Fits(s, p, id, node) && Live(s, x)
    ensures PathOk(Attach(s, p, id, node), x) && ParentOk(Attach(s, p, id, node), x)
    ensures ChildrenOk(Attach(s, p, id, node), x)
  {
    assert PathOk(s, x) && ParentOk(s, x);
    AttachKeepsChildren(s, p, id, node, x);
    hide FolderNamesOk, RootsOk, KindNameTaken, ChildrenOk, Walkable;
    var t := Attach(s, p, id, node);
    assert PathOk(t, x);
    assert ParentOk(t, x);
  }

  lemma AttachKeepsChildren(s: Drives, p: Id, id: Id, node: Node, x: Id)
    requires Fits(s, p, id, node) && Live(s, x)
    ensures ChildrenOk(Attach(s, p, id, node), x)
  {
    assert ChildrenOk(s, x);
    hide FolderNamesOk, RootsOk, KindNameTaken, PathOk, ParentOk, Walkable;
    assert id !in s[x].children;
  }

  lemma AttachKeepsNames(s: Drives, p: Id, id: Id, node: Node)
    requires Fits(s, p, id, node)
    ensures FolderNamesOk(Attach(s, p, id, node))
  {
    var t := Attach(s, p, id, node);
    hide PathOk, ParentOk, ChildrenOk, RootsOk;
    forall x, y | Siblings(t, x, y) && t[x].kind.Folder? && t[y].kind.Folder? ensures t[x].name != t[y].name {
      assert x != id && y != id ==> Siblings(s, x, y);
    }
  }

  lemma AttachKeepsTree(s: Drives, p: Id, id: Id, node: Node)
    requires Fits(s, p, id, node)
    ensures Tree(Attach(s, p, id, node))
  {
    var t := Attach(s, p, id, node);
    AttachedNode(s, p, id, node);
    AttachKeepsNames(s, p, id, node);
    assert RootsOk(t);
    hide PathOk, ParentOk, ChildrenOk, FolderNamesOk, RootsOk, KindNameTaken, Walkable;
    forall x | Live(t, x) ensures PathOk(t, x) && ParentOk(t, x) && ChildrenOk(t, x) {
      if x != id { AttachKeepsNode(s, p, id, node, x); }
    }
  }

  /** Same places, kinds, managers and deletions; names may differ. */
  ghost predicate SamePlaces(s: Drives, t: Drives) {
    && s.Keys == t.Keys
    && forall id | id in s ::
         && t[id].path == s[id].path && t[id].parent == s[id].parent && t[id].children == s[id].children
         && t[id].kind == s[id].kind && t[id].managerId == s[id].managerId && t[id].deletedTime == s[id].deletedTime
  }

  lemma SamePlacesKeepsTree(s: Drives, t: Drives)
    requires Tree(s) && SamePlaces(s, t) && FolderNamesOk(t)
    ensures Tree(t)
  {
    forall x | Live(t, x) ensures PathOk(t, x) && ParentOk(t, x) && ChildrenOk(t, x) {
      assert Live(s, x) && PathOk(s, x) && ParentOk(s, x) && ChildrenOk(s, x);
    }
  }

  lemma SharedKeepsTree(s: Drives, ids: seq<Id>, shared: seq<Permission>)
    requires Tree(s)
    ensures Tree(SetShared(s, ids, shared))
  {
    var t := SetShared(s, ids, shared);
    forall x, y | Siblings(t, x, y) && t[x].kind.Folder? && t[y].kind.Folder? ensures t[x].name != t[y].name {
      assert Siblings(s, x, y);
    }
    SamePlacesKeepsTree(s, t);
  }

  lemma EditedKeepsNames(s: Drives, id: Id, edit: DriveEdit)
    requires FolderNamesOk(s) && Live(s, id)
    requires Given(edit.name) ==> !NameTaken(s, s[id].parent, edit.name.value)
    ensures FolderNamesOk(s[id := Edited(s[id], edit)])
  {
    var t := s[id := Edited(s[id], edit)];
    forall x, y | Siblings(t, x, y) && t[x].kind.Folder? && t[y].kind.Folder? ensures t[x].name != t[y].name {
      assert Siblings(s, x, y);
    }
  }

  lemma EditedKeepsTree(s: Drives, id: Id, edit: DriveEdit)
    requires Tree(s) && Live(s, id)
    requires Given(edit.name) ==> !NameTaken(s, s[id].parent, edit.name.value)
    ensures Tree(s[id := Edited(s[id], edit)])
  {
    var t := s[id := Edited(s[id], edit)];
    assert SamePlaces(s, t);
    EditedKeepsNames(s, id, edit);
    SamePlacesKeepsTree(s, t);
  }

  /** Every live node whose path contains the id is marked, and no other field is changed. */
  function DeletedByPath(s: Drives, id: Id, time: int): Drives {
    map x | x in s :: if Live(s, x) && id in s[x].path then s[x].(deletedTime := Some(time)) else s[x]
  }

  /** deleteDrive marks exactly the live nodes whose path contains the deleted id. */
  lemma DeleteMarksPath(s: Drives, requester: Option<User>, id: Id, time: int)
    requires Tree(s) && DeleteResult(s, requester, id, time).Ok?
    ensures DeleteResult(s, requester, id, time).value == DeletedByPath(s, id, time)
  {
    forall x | x in s ensures x in Subtree(s, id) <==> Live(s, x) && id in s[x].path { WalkAgreesWithPath(s, id, x); }
  }

  lemma DeleteKeepsNode(s: Drives, id: Id, time: int, x: Id)
    requires Tree(s) && Live(DeletedByPath(s, id, time), x)
    ensures PathOk(DeletedByPath(s, id, time), x) && ChildrenOk(DeletedByPath(s, id, time), x)
    ensures ParentOk(DeletedByPath(s, id, time), x)
  {
    assert Live(s, x) && PathOk(s, x) && ChildrenOk(s, x);
    DeleteKeepsParent(s, id, time, x);
    hide Tree, Distinct, ParentOk;
  }

  lemma DeleteKeepsParent(s: Drives, id: Id, time: int, x: Id)
    requires Tree(s) && Live(DeletedByPath(s, id, time), x)
    ensures ParentOk(DeletedByPath(s, id, time), x)
  {
    assert Live(s, x) && ParentOk(s, x);
    hide Tree, PathOk, ChildrenOk;
    if s[x].parent.Some? {
      assert forall y | y in s[s[x].parent.value].path :: y in s[x].path;
    }
  }

  lemma DeleteKeepsTree(s: Drives, requester: Option<User>, id: Id, time: int)
    requires Tree(s) && DeleteResult(s, requester, id, time).Ok?
    ensures Tree(DeleteResult(s, requester, id, time).value)
  {
    DeleteMarksPath(s, requester, id, time);
    assert PathOk(s, id) && ParentOk(s, id);
    var t := DeletedByPath(s, id, time);
    forall x | Live(t, x)
      ensures PathOk(t, x) && ParentOk(t, x) && ChildrenOk(t, x)
    {
      DeleteKeepsNode(s, id, time, x);
    }
    hide DeleteResult, PathOk, ChildrenOk;
    forall r | r in t && t[r].parent == None ensures t[r].deletedTime == None {
      assert Live(s, r) && ParentOk(s, r);
    }
    forall x, y | Siblings(t, x, y) && t[x].kind.Folder? && t[y].kind.Folder? ensures t[x].name != t[y].name {
      assert Siblings(s, x, y);
    }
  }

  function SharedByPath(s: Drives, id: Id, shared: seq<Permission>): Drives {
    map x | x in s :: if Live(s, x) && id in s[x].path then s[x].(sharedUsers := shared) else s[x]
  }

  /** Sharing reaches exactly the live nodes whose path contains the shared id, and changes no other field. */
  lemma ShareReachesPath(s: Drives, requester: Option<User>, id: Id, shared: seq<Permission>)
    requires Tree(s) && ShareResult(s, requester, id, shared).Ok?
    ensures ShareResult(s, requester, id, shared).value == SharedByPath(s, id, shared)
  {
    forall x | x in s ensures x in Subtree(s, id) <==> Live(s, x) && id in s[x].path { WalkAgreesWithPath(s, id, x); }
  }

  /** The documentation says that a protected folder cannot be deleted. A deletion spares them all
      exactly when none is below the deleted node. */
  lemma ProtectedSurviveIff(s: Drives, requester: Option<User>, id: Id, time: int)
    requires Tree(s) && DeleteResult(s, requester, id, time).Ok?
    ensures (forall x | Live(s, x) && s[x].restricted :: Live(DeleteResult(s, requester, id, time).value, x))
      <==> (forall x | Live(s, x) && id in s[x].path && x != id :: !s[x].restricted)
  {
    var t := DeleteResult(s, requester, id, time).value;
    DeleteMarksPath(s, requester, id, time);
    hide Subtree, Tree;
    if forall x | Live(s, x) && s[x].restricted :: Live(t, x) {
      forall x | Live(s, x) && id in s[x].path && x != id ensures !s[x].restricted { assert !Live(t, x); }
    }
  }

  ghost predicate FileNamesOk(s: Drives) {
    forall x, y | Siblings(s, x, y) && s[x].kind.File? && s[y].kind.File? :: s[x].name != s[y].name
  }

  /** File names stay unique in a folder exactly when the name is not taken there, which the code
      checks unless the file goes to the default root. */
  lemma FileNamesKeptIff(s: Drives, requester: Option<User>, parentId: Option<Id>, description: string, upload: Upload,
                         id: Id)
    requires Tree(s) && FileNamesOk(s) && id !in s
    requires FileResult(s, requester, parentId, description, Some(upload), id).Ok?
    ensures var p := ParentOf(s, requester.value.id, parentId).value;
      && (FileNamesOk(FileResult(s, requester, parentId, description, Some(upload), id).value)
          <==> !KindNameTaken(s, Some(p), File, upload.filename))
      && (Given(parentId) ==> !KindNameTaken(s, Some(p), File, upload.filename))
  {
    var p := ParentOf(s, requester.value.id, parentId).value;
    var t := FileResult(s, requester, parentId, description, Some(upload), id).value;
    hide ParentOf, PathOk, ParentOk, ChildrenOk, RootsOk, FolderNamesOk;
    forall x, y | Siblings(t, x, y) && x != id && y != id ensures Siblings(s, x, y) {}
    if KindNameTaken(s, Some(p), File, upload.filename) {
      var x :| x in s && s[x].deletedTime == None && s[x].parent == Some(p) && s[x].kind == File
               && s[x].name == upload.filename;
      assert Siblings(t, x, id);
    }
  }

  // ----- runs ---------------------------------------------------------------

  datatype Action =
    | CreateUser(userId: string, newId: Id)
    | CreateFolder(requester: Option<User>, name: string, parentId: Option<Id>, restricted: bool, description: string,
                   newId: Id)
    | CreateFile(requester: Option<User>, parentId: Option<Id>, description: string, upload: Option<Upload>, newId: Id)
    | EditDrive(requester: Option<User>, id: Id, edit: DriveEdit, users: set<string>)
    | ShareDrive(requester: Option<User>, id: Id, shared: seq<Permission>)
    | DeleteDrive(requester: Option<User>, id: Id, time: int)

  /** New ids are unused, and a new user has no drive yet. */
  predicate Fresh(s: Drives, a: Action) {
    match a
    case CreateUser(u, id) => id !in s && forall x | x in s :: s[x].managerId != u
    case CreateFolder(_, _, _, _, _, id) => id !in s
    case CreateFile(_, _, _, _, id) => id !in s
    case _ => true
  }

  ghost function Outcome(s: Drives, a: Action): Result<Drives, Error>
    requires Tree(s) && Fresh(s, a)
  {
    match a
    case CreateUser(u, id) => Ok(s[id := NewRoot(u, id)])
    case CreateFolder(q, name, p, restricted, d, id) => FolderResult(s, q, name, p, restricted, d, id)
    case CreateFile(q, p, d, upload, id) => FileResult(s, q, p, d, upload, id)
    case EditDrive(q, id, edit, users) => EditResult(s, q, id, edit, users)
    case ShareDrive(q, id, shared) => ShareResult(s, q, id, shared)
    case DeleteDrive(q, id, time) => DeleteResult(s, q, id, time)
  }

  /** A call that throws changes nothing. */
  ghost function Step(s: Drives, a: Action): Drives
    requires Tree(s) && Fresh(s, a)
  {
    match Outcome(s, a) case Ok(t) => t case Err(_) => s
  }

  lemma ParentIsLive(s: Drives, userId: string, parentId: Option<Id>)
    requires Tree(s) && ParentOf(s, userId, parentId).Some?
    ensures Live(s, ParentOf(s, userId, parentId).value)
  {
  }

  lemma FolderKeepsTree(s: Drives, q: Option<User>, name: string, parentId: Option<Id>, restricted: bool, d: string,
                        id: Id)
    requires Tree(s) && id !in s && FolderResult(s, q, name, parentId, restricted, d, id).Ok?
    ensures Tree(FolderResult(s, q, name, parentId, restricted, d, id).value)
  {
    ParentIsLive(s, q.value.id, parentId);
    hide ParentOf, Tree;
    var p := ParentOf(s, q.value.id, parentId).value;
    AttachKeepsTree(s, p, id, NewFolder(s, p, id, name, restricted, d));
  }

  lemma FileKeepsTree(s: Drives, q: Option<User>, parentId: Option<Id>, d: string, upload: Option<Upload>, id: Id)
    requires Tree(s) && id !in s && FileResult(s, q, parentId, d, upload, id).Ok?
    ensures Tree(FileResult(s, q, parentId, d, upload, id).value)
  {
    ParentIsLive(s, q.value.id, parentId);
    hide ParentOf, Tree;
    var p := ParentOf(s, q.value.id, parentId).value;
    AttachKeepsTree(s, p, id, NewFile(s, p, id, q.value, upload.value.filename, d, upload.value.stored.value));
  }

  lemma RootKeepsTree(s: Drives, u: string, id: Id)
    requires Tree(s) && Fresh(s, CreateUser(u, id))
    ensures Tree(s[id := NewRoot(u, id)])
  {
    var t := s[id := NewRoot(u, id)];
    forall x | Live(t, x) ensures PathOk(t, x) && ParentOk(t, x) && ChildrenOk(t, x) {
      if x != id { assert PathOk(s, x) && ParentOk(s, x) && ChildrenOk(s, x); }
    }
    forall x, y | Siblings(t, x, y) && t[x].kind.Folder? && t[y].kind.Folder? ensures t[x].name != t[y].name {
      assert Siblings(s, x, y);
    }
  }

  lemma StepKeepsTree(s: Drives, a: Action)
    requires Tree(s) && Fresh(s, a)
    ensures Tree(Step(s, a))
  {
    if Outcome(s, a).Ok? {
      hide Tree;
      match a
      case CreateUser(u, id) => RootKeepsTree(s, u, id);
      case CreateFolder(q, name, p, restricted, d, id) => FolderKeepsTree(s, q, name, p, restricted, d, id);
      case CreateFile(q, p, d, upload, id) => FileKeepsTree(s, q, p, d, upload, id);
      case EditDrive(q, id, edit, users) =>
        EditedKeepsTree(s, id, edit);
        if edit.sharedUsers.Some? {
          SharedKeepsTree(s[id := Edited(s[id], edit)], Subtree(s, id), edit.sharedUsers.value);
        }
      case ShareDrive(q, id, shared) => SharedKeepsTree(s, Subtree(s, id), shared);
      case DeleteDrive(q, id, time) => DeleteKeepsTree(s, q, id, time);
    }
  }

  lemma EmptyIsTree()
    ensures Tree(map[])
  {
  }

  /** The collection after a run of operations on an empty one: always a tree. Calls that would
      reuse an id do not happen. */
  ghost function After(actions: seq<Action>): (s: Drives)
    ensures Tree(s)
  {
    if actions == [] then
      EmptyIsTree();
      map[]
    else
      var before, last := After(actions[..|actions| - 1]), actions[|actions| - 1];
      if Fresh(before, last) then
        StepKeepsTree(before, last);
        Step(before, last)
      else before
  }

  /** The node keeps its place; a deleted one keeps everything. */
  ghost predicate Persists(s: Drives, t: Drives, x: Id) {
    x in s ==>
      && x in t && t[x].path == s[x].path && t[x].parent == s[x].parent && t[x].kind == s[x].kind
      && t[x].managerId == s[x].managerId && t[x].fileId == s[x].fileId
      && s[x].children <= t[x].children
      && (!Live(s, x) ==> t[x] == s[x])
  }

  lemma AttachPersists(s: Drives, p: Id, id: Id, node: Node, x: Id)
    requires Live(s, p) && id !in s
    ensures Persists(s, Attach(s, p, id, node), x)
  {
  }

  lemma SharedPersists(s: Drives, ids: seq<Id>, shared: seq<Permission>, x: Id)
    requires x in ids ==> Live(s, x)
    ensures Persists(s, SetShared(s, ids, shared), x)
  {
  }

  lemma EditedPersists(s: Drives, id: Id, edit: DriveEdit, ids: seq<Id>, x: Id)
    requires Live(s, id) && (x in ids ==> Live(s, x))
    ensures Persists(s, s[id := Edited(s[id], edit)], x)
    ensures edit.sharedUsers.Some? ==>
              Persists(s, SetShared(s[id := Edited(s[id], edit)], ids, edit.sharedUsers.value), x)
  {
  }

  lemma StepPersists(s: Drives, a: Action, x: Id)
    requires Tree(s) && Fresh(s, a)
    ensures Persists(s, Step(s, a), x)
  {
    if Outcome(s, a).Ok? {
      match a {
        case CreateFolder(q, name, p, restricted, d, id) =>
          ParentIsLive(s, q.value.id, p);
          var parent := ParentOf(s, q.value.id, p).value;
          AttachPersists(s, parent, id, NewFolder(s, parent, id, name, restricted, d), x);
        case CreateFile(q, p, d, upload, id) =>
          ParentIsLive(s, q.value.id, p);
          var parent := ParentOf(s, q.value.id, p).value;
          var node := NewFile(s, parent, id, q.value, upload.value.filename, d, upload.value.stored.value);
          AttachPersists(s, parent, id, node, x);
        case EditDrive(q, id, edit, users) =>
          WalkAgreesWithPath(s, id, x);
          EditedPersists(s, id, edit, Subtree(s, id), x);
        case ShareDrive(q, id, shared) =>
          WalkAgreesWithPath(s, id, x);
          SharedPersists(s, Subtree(s, id), shared, x);
        case DeleteDrive(q, id, time) =>
          WalkAgreesWithPath(s, id, x);
          hide Tree, Subtree;
        case CreateUser(_, _) =>
          hide Tree;
      }
    }
  }

  /** Over whole runs: no node disappears, moves or comes back from deletion. */
  lemma {:induction false} RunPersists(actions: seq<Action>, n: nat, x: Id)
    requires n <= |actions|
    ensures Persists(After(actions[..n]), After(actions), x)
    decreases |actions|
  {
    hide Tree;
    if n == |actions| {
      assert actions[..n] == actions;
    } else {
      var front, last := actions[..|actions| - 1], actions[|actions| - 1];
      assert actions[..n] == front[..n];
      RunPersists(front, n, x);
      if Fresh(After(front), last) { StepPersists(After(front), last, x); }
    }
  }

  /** In every run, a live node is listed by its live parent and its path is the parent's and its own id. */
  lemma RunIsTree(actions: seq<Action>, x: Id)
    requires Live(After(actions), x) && After(actions)[x].parent.Some?
    ensures var s, p := After(actions), After(actions)[x].parent.value;
      Live(s, p) && s[p].kind.Folder? && x in s[p].children && s[x].path == s[p].path + [x]
  {
    assert ParentOk(After(actions), x);
  }

  // ----- runs that break what the documentation promises --------------------

  lemma AfterPush(front: seq<Action>, a: Action)
    requires Fresh(After(front), a)
    ensures After(front + [a]) == Step(After(front), a)
  {
    assert (front + [a])[..|front|] == front;
  }

  function Owner(): Option<User> { Some(User("u", false)) }

  function RootRun(): seq<Action> { [CreateUser("u", "r")] }

  function FolderIn(parent: Id, name: string, restricted: bool, id: Id): Action {
    CreateFolder(Owner(), name, Some(parent), restricted, "", id)
  }

  lemma RootOnly()
    ensures After(RootRun()) == map["r" := NewRoot("u", "r")]
  {
    EmptyIsTree();
    assert After([]) == map[];
    AfterPush([], CreateUser("u", "r"));
    assert [] + [CreateUser("u", "r")] == RootRun();
  }

  /** A folder of the owner's, made in one of the owner's live folders under a new name. */
  lemma FolderIsMade(front: seq<Action>, parent: Id, name: string, restricted: bool, id: Id)
    requires parent != "" && Live(After(front), parent) && id !in After(front)
    requires After(front)[parent].kind.Folder? && After(front)[parent].managerId == "u"
    requires forall x | x in After(front) :: After(front)[x].parent != Some(parent)
    ensures var s := After(front);
      After(front + [FolderIn(parent, name, restricted, id)])
      == Attach(s, parent, id, NewFolder(s, parent, id, name, restricted, ""))
  {
    hide Attach, Tree;
    AfterPush(front, FolderIn(parent, name, restricted, id));
  }

  function NestedRun(restricted: bool): seq<Action> {
    RootRun() + [FolderIn("r", "A", false, "a")] + [FolderIn("a", "B", restricted, "b")]
  }

  /** Folder B below folder A below the root. */
  lemma Nested(restricted: bool)
    ensures var s := After(NestedRun(restricted));
      && Live(s, "r") && Live(s, "a") && Live(s, "b") && !s["a"].restricted && s["b"].restricted == restricted
      && s["a"].parent == Some("r") && s["b"].parent == Some("a") && s["b"].path == ["r", "a", "b"]
      && s["r"].path == ["r"] && s["a"].path == ["r", "a"] && s["a"].children == ["b"]
      && s["a"].managerId == "u" && s["r"].managerId == "u" && "" !in s
  {
    RootOnly();
    FolderIsMade(RootRun(), "r", "A", false, "a");
    FolderIsMade(RootRun() + [FolderIn("r", "A", false, "a")], "a", "B", restricted, "b");
  }

  /** Protected folder B goes with unprotected folder A above it. */
  lemma ProtectedFolderIsDeleted()
    ensures var s, t := After(NestedRun(true)), After(NestedRun(true) + [DeleteDrive(Owner(), "a", 1)]);
      Live(s, "b") && s["b"].restricted && !Live(t, "b")
  {
    Nested(true);
    hide Tree, Subtree, NestedRun;
    AfterPush(NestedRun(true), DeleteDrive(Owner(), "a", 1));
    DeleteMarksPath(After(NestedRun(true)), Owner(), "a", 1);
  }

  function UploadOf(fileId: string, id: Id): Action {
    CreateFile(Owner(), None, "", Some(Upload("data.csv", Ok(fileId))), id)
  }

  lemma UploadedToRoot(front: seq<Action>, fileId: string, id: Id)
    requires Live(After(front), "r") && IsRoot(After(front), "u", "r") && After(front)["r"].kind.Folder?
    requires id !in After(front)
    requires forall x | x in After(front) :: After(front)[x].parent != None || x == "r"
    ensures var s := After(front);
      After(front + [UploadOf(fileId, id)])
      == Attach(s, "r", id, NewFile(s, "r", id, User("u", false), "data.csv", "", fileId))
  {
    hide Attach;
    var s := After(front);
    assert ParentOf(s, "u", None) == Some("r");
    AfterPush(front, UploadOf(fileId, id));
  }

  /** Two uploads of the same name without a parent id both land in the root. */
  lemma SameNameTwice()
    ensures !FileNamesOk(After(RootRun() + [UploadOf("1", "f1")] + [UploadOf("2", "f2")]))
  {
    RootOnly();
    UploadedToRoot(RootRun(), "1", "f1");
    UploadedToRoot(RootRun() + [UploadOf("1", "f1")], "2", "f2");
    assert Siblings(After(RootRun() + [UploadOf("1", "f1")] + [UploadOf("2", "f2")]), "f1", "f2");
  }
}
