/** What the calls on the drive collection answer and leave, said of the nodes' fields alone. */
module DriveCalls {
  import opened Sequences
  import opened Documents
  import opened Drive
  import opened DriveHistory

  // ----- making folders and files -------------------------------------------

  /** The live node with the given id, or without one the requester's root. */
  ghost predicate IsTarget(s: Drives, u: User, parentId: Option<Id>, p: Id) {
    p in s
    && if parentId.Some? && parentId.value != "" then p == parentId.value && s[p].deletedTime == None
       else s[p].managerId == u.id && s[p].parent == None
  }

  ghost predicate MayAdd(n: Node, u: User) {
    || n.managerId == u.id
    || exists i :: 0 <= i < |n.sharedUsers| && n.sharedUsers[i].iid == u.id && n.sharedUsers[i].canWrite
  }

  /** A live node of the kind has the name and the parent. */
  ghost predicate HasChild(s: Drives, parent: Option<Id>, kind: Kind, name: string) {
    exists x :: x in s && s[x].deletedTime == None && s[x].parent == parent && s[x].kind == kind && s[x].name == name
  }

  /** The node is there, p lists it, and nothing else is changed. */
  ghost predicate IsAdded(s: Drives, t: Drives, p: Id, id: Id, node: Node) {
    && p in s && id !in s
    && t == s[id := node][p := s[p].(children := s[p].children + [id])]
  }

  /** There is one target at most, the one the calls find. */
  lemma TargetIff(s: Drives, u: User, parentId: Option<Id>, p: Id)
    requires Tree(s)
    ensures IsTarget(s, u, parentId, p) <==> ParentOf(s, u.id, parentId) == Some(p)
    ensures IsTarget(s, u, parentId, p) ==> Live(s, p)
  {
    hide PathOk, ParentOk, ChildrenOk, FolderNamesOk, Walkable;
    if !(parentId.Some? && parentId.value != "") {
      assert IsTarget(s, u, parentId, p) <==> IsRoot(s, u.id, p);
    }
  }

  lemma MayAddIff(n: Node, u: User)
    ensures MayWrite(n, u) <==> MayAdd(n, u)
  {
  }

  lemma HasChildIff(s: Drives, parent: Option<Id>, kind: Kind, name: string)
    ensures KindNameTaken(s, parent, kind, name) <==> HasChild(s, parent, kind, name)
  {
  }

  /** A folder is made in the target by its manager or a user who may write there, if no folder there has the name; it
      has the target's manager and permissions. */
  ghost predicate FolderAnswered(s: Drives, requester: Option<User>, name: string, parentId: Option<Id>,
                                 restricted: bool, description: string, id: Id, r: Result<Drives, Error>) {
    && (requester == None ==> r == Err(NotLoggedIn))
    && (requester.Some? && (forall p | p in s :: !IsTarget(s, requester.value, parentId, p)) ==> r == Err(NoPermission))
    && forall p | requester.Some? && IsTarget(s, requester.value, parentId, p) ::
         if !MayAdd(s[p], requester.value) then r == Err(NoPermission)
         else if s[p].kind == File || HasChild(s, Some(p), Folder, name) then r == Err(Malformed)
         else
           r.Ok? && IsAdded(s, r.value, p, id,
                            Node(s[p].managerId, s[p].path + [id], restricted, name, description, None, Folder, Some(p),
                                 [], s[p].sharedUsers, None))
  }

  lemma FolderCall(s: Drives, requester: Option<User>, name: string, parentId: Option<Id>, restricted: bool,
                   description: string, id: Id)
    requires Tree(s) && id !in s
    ensures FolderAnswered(s, requester, name, parentId, restricted, description, id,
                           FolderResult(s, requester, name, parentId, restricted, description, id))
  {
    if requester.Some? {
      forall p
        ensures IsTarget(s, requester.value, parentId, p) <==> ParentOf(s, requester.value.id, parentId) == Some(p)
      {
        TargetIff(s, requester.value, parentId, p);
      }
      match ParentOf(s, requester.value.id, parentId)
      case None =>
      case Some(p) =>
        MayAddIff(s[p], requester.value);
        HasChildIff(s, Some(p), Folder, name);
    }
    hide Tree, IsTarget, ParentOf, MayAdd, MayWrite, HasChild, KindNameTaken;
  }

  /** A file goes to the target by its manager alone, if there is one to upload and no file has its name under the
      parent as it was given; it has the target's permissions. */
  ghost predicate FileAnswered(s: Drives, requester: Option<User>, parentId: Option<Id>, description: string,
                               upload: Option<Upload>, id: Id, r: Result<Drives, Error>) {
    && (requester == None ==> r == Err(NotLoggedIn))
    && (requester.Some? && (forall p | p in s :: !IsTarget(s, requester.value, parentId, p)) ==> r == Err(NoPermission))
    && forall p | requester.Some? && IsTarget(s, requester.value, parentId, p) ::
         if s[p].managerId != requester.value.id then r == Err(NoPermission)
         else if s[p].kind == File || upload == None || HasChild(s, parentId, File, upload.value.filename)
         then r == Err(Malformed)
         else match upload.value.stored
           case Err(e) => r == Err(e)
           case Ok(fileId) =>
             r.Ok? && IsAdded(s, r.value, p, id,
                              Node(requester.value.id, s[p].path + [id], false, upload.value.filename, description,
                                   Some(fileId), File, Some(p), [], s[p].sharedUsers, None))
  }

  lemma FileCall(s: Drives, requester: Option<User>, parentId: Option<Id>, description: string, upload: Option<Upload>,
                 id: Id)
    requires Tree(s) && id !in s
    ensures FileAnswered(s, requester, parentId, description, upload, id,
                         FileResult(s, requester, parentId, description, upload, id))
  {
    if requester.Some? {
      forall p
        ensures IsTarget(s, requester.value, parentId, p) <==> ParentOf(s, requester.value.id, parentId) == Some(p)
      {
        TargetIff(s, requester.value, parentId, p);
      }
      if upload.Some? { HasChildIff(s, parentId, File, upload.value.filename); }
    }
    hide Tree, IsTarget, ParentOf, HasChild, KindNameTaken;
  }

  // ----- changing nodes -----------------------------------------------------

  ghost predicate OnPath(s: Drives, id: Id, x: Id) {
    x in s && s[x].deletedTime == None && id in s[x].path
  }

  ghost predicate HasNamesake(s: Drives, parent: Option<Id>, name: string) {
    exists x :: x in s && s[x].deletedTime == None && s[x].parent == parent && s[x].name == name
  }

  /** The manager or an admin renames the node where no node beside it has the name, describes it, and gives it and all
      live nodes below it permissions of existing users; empty texts change nothing. */
  ghost predicate EditAnswered(s: Drives, requester: Option<User>, id: Id, edit: DriveEdit, users: set<string>,
                               r: Result<Drives, Error>) {
    if requester == None then r == Err(NotLoggedIn)
    else if id !in s || s[id].deletedTime != None
            || !(requester.value.isAdmin || s[id].managerId == requester.value.id) then r == Err(NoPermission)
    else if edit.name.Some? && edit.name.value != "" && HasNamesake(s, s[id].parent, edit.name.value)
    then r == Err(Malformed)
    else if edit.sharedUsers.Some? && HasStranger(edit.sharedUsers.value, users) then r == Err(NonExistent)
    else if edit.sharedUsers == None && (edit.name == None || edit.name.value == "")
            && (edit.description == None || edit.description.value == "") then r == Err(Malformed)
    else r.Ok? && EditLeaves(s, r.value, id, edit)
  }

  ghost predicate EditLeaves(s: Drives, t: Drives, id: Id, edit: DriveEdit) {
    && t.Keys == s.Keys
    && forall x | x in s ::
         t[x] ==
         s[x].(name := if x == id && edit.name.Some? && edit.name.value != "" then edit.name.value else s[x].name,
               description := if x == id && edit.description.Some? && edit.description.value != ""
                              then edit.description.value else s[x].description,
               sharedUsers := if edit.sharedUsers.Some? && OnPath(s, id, x) then edit.sharedUsers.value
                              else s[x].sharedUsers)
  }

  lemma EditedFields(n: Node, edit: DriveEdit)
    ensures Edited(n, edit) ==
      n.(name := if edit.name.Some? && edit.name.value != "" then edit.name.value else n.name,
         description := if edit.description.Some? && edit.description.value != "" then edit.description.value
                        else n.description,
         sharedUsers := if edit.sharedUsers.Some? then edit.sharedUsers.value else n.sharedUsers)
  {
  }

  lemma EditEffect(s: Drives, id: Id, edit: DriveEdit, ids: seq<Id>)
    requires Live(s, id) && id in ids && forall x | x in s :: x in ids <==> OnPath(s, id, x)
    ensures var t := s[id := Edited(s[id], edit)];
      && (edit.sharedUsers == None ==> EditLeaves(s, t, id, edit))
      && (edit.sharedUsers.Some? ==> EditLeaves(s, SetShared(t, ids, edit.sharedUsers.value), id, edit))
  {
    EditedFields(s[id], edit);
    hide Edited, OnPath;
  }

  lemma EditCall(s: Drives, requester: Option<User>, id: Id, edit: DriveEdit, users: set<string>)
    requires Tree(s)
    ensures EditAnswered(s, requester, id, edit, users, EditResult(s, requester, id, edit, users))
  {
    if edit.sharedUsers.Some? { StrangerIff(edit.sharedUsers.value, users); }
    if Live(s, id) {
      forall x | x in s ensures x in Subtree(s, id) <==> OnPath(s, id, x) { WalkAgreesWithPath(s, id, x); }
      assert id in Subtree(s, id);
      EditEffect(s, id, edit, Subtree(s, id));
      if edit.name.Some? { NamesakeIff(s, s[id].parent, edit.name.value); }
    }
    hide Tree, Subtree, AllUsers, HasStranger, NameTaken, HasNamesake, EditLeaves, Edited, SetShared, OnPath;
  }

  lemma NamesakeIff(s: Drives, parent: Option<Id>, name: string)
    ensures NameTaken(s, parent, name) <==> HasNamesake(s, parent, name)
  {
  }

  ghost predicate HasStranger(shared: seq<Permission>, users: set<string>) {
    exists p :: p in shared && p.iid !in users
  }

  lemma StrangerIff(shared: seq<Permission>, users: set<string>)
    ensures AllUsers(shared, users) <==> !HasStranger(shared, users)
  {
  }

  /** The manager sets the permissions of the node and of all live nodes below it. */
  ghost predicate ShareAnswered(s: Drives, requester: Option<User>, id: Id, shared: seq<Permission>,
                                r: Result<Drives, Error>) {
    if requester == None then r == Err(NotLoggedIn)
    else if id !in s || s[id].deletedTime != None || s[id].managerId != requester.value.id then r == Err(NoPermission)
    else
      && r.Ok? && r.value.Keys == s.Keys
      && forall x | x in s :: r.value[x] == if OnPath(s, id, x) then s[x].(sharedUsers := shared) else s[x]
  }

  lemma ShareCall(s: Drives, requester: Option<User>, id: Id, shared: seq<Permission>)
    requires Tree(s)
    ensures ShareAnswered(s, requester, id, shared, ShareResult(s, requester, id, shared))
  {
    if Live(s, id) {
      forall x | x in s ensures x in Subtree(s, id) <==> OnPath(s, id, x) { WalkAgreesWithPath(s, id, x); }
    }
    hide Tree, Subtree;
  }

  /** A node that is no root and not protected is deleted with all live nodes below it. */
  ghost predicate DeleteAnswered(s: Drives, requester: Option<User>, id: Id, time: int, r: Result<Drives, Error>) {
    if requester == None then r == Err(NotLoggedIn)
    else if id !in s || s[id].deletedTime != None then r == Err(NonExistent)
    else if s[id].restricted || s[id].parent == None then r == Err(NoPermission)
    else
      && r.Ok? && r.value.Keys == s.Keys
      && forall x | x in s :: r.value[x] == if OnPath(s, id, x) then s[x].(deletedTime := Some(time)) else s[x]
  }

  lemma DeleteCall(s: Drives, requester: Option<User>, id: Id, time: int)
    requires Tree(s)
    ensures DeleteAnswered(s, requester, id, time, DeleteResult(s, requester, id, time))
  {
    if Live(s, id) {
      forall x | x in s ensures x in Subtree(s, id) <==> OnPath(s, id, x) { WalkAgreesWithPath(s, id, x); }
    }
    hide Tree, Subtree;
  }

  // ----- sharing by email ---------------------------------------------------

  function KnownTo(userOf: map<string, string>): string -> bool { (email: string) => email in userOf }

  /** One permission for each email of a known user, in the order of the emails, with that user's id and the rights
      given; the other emails are skipped. */
  ghost predicate SharedWith(emails: seq<string>, userOf: map<string, string>, rights: Permission,
                             shared: seq<Permission>) {
    var known := Filter(emails, KnownTo(userOf));
    && |shared| == |known|
    && forall i | 0 <= i < |known| ::
         known[i] in userOf
         && shared[i] == Permission(userOf[known[i]], rights.canRead, rights.canWrite, rights.canDelete)
  }

  /** A live node at or below the shared one has the new permissions, and nothing else changes. */
  ghost predicate SharedBelow(s: Drives, t: Drives, id: Id, shared: seq<Permission>) {
    && t.Keys == s.Keys
    && forall x | x in s :: t[x] == if OnPath(s, id, x) then s[x].(sharedUsers := shared) else s[x]
  }

  ghost predicate SharedByEmail(s: Drives, t: Drives, id: Id, emails: seq<string>, userOf: map<string, string>,
                                rights: Permission) {
    exists shared :: SharedWith(emails, userOf, rights, shared) && SharedBelow(s, t, id, shared)
  }

  /** Whom a folder was shared with, other than its manager, may make a folder there exactly if the right to write was
      given. */
  lemma RecipientMakesFolder(s: Drives, t: Drives, id: Id, emails: seq<string>, userOf: map<string, string>,
                             rights: Permission, x: Id, email: string, name: string, restricted: bool,
                             description: string, newId: Id)
    requires Tree(t) && SharedByEmail(s, t, id, emails, userOf, rights)
    requires OnPath(s, id, x) && s[x].kind == Folder && x != "" && newId !in t && !HasChild(t, Some(x), Folder, name)
    requires email in emails && email in userOf && userOf[email] != s[x].managerId
    ensures var user := User(userOf[email], false);
      FolderResult(t, Some(user), name, Some(x), restricted, description, newId).Ok? <==> rights.canWrite
  {
    var user := User(userOf[email], false);
    var shared :| SharedWith(emails, userOf, rights, shared) && SharedBelow(s, t, id, shared);
    FolderCall(t, Some(user), name, Some(x), restricted, description, newId);
    assert IsTarget(t, user, Some(x), x) && t[x].sharedUsers == shared;
    RecipientMayAdd(emails, userOf, rights, shared, t[x], email);
    hide Tree, HasChild, MayAdd, SharedWith, SharedBelow, OnPath, FolderResult;
  }

  lemma RecipientMayAdd(emails: seq<string>, userOf: map<string, string>, rights: Permission, shared: seq<Permission>,
                        n: Node, email: string)
    requires SharedWith(emails, userOf, rights, shared) && n.sharedUsers == shared
    requires email in emails && email in userOf && userOf[email] != n.managerId
    ensures MayAdd(n, User(userOf[email], false)) <==> rights.canWrite
  {
    var known := Filter(emails, KnownTo(userOf));
    FilterMember(emails, KnownTo(userOf), email);
    hide Filter;
    var i :| 0 <= i < |known| && known[i] == email;
    assert shared[i].iid == userOf[email];
  }
}
