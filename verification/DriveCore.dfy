/** The operations of `driveCore.ts` on the drives collection. New uuids, the clock, the users known
    to the system and the outcome of an upload are parameters. */
module DriveCore {
  import opened Sequences
  import opened Drive
  import opened DriveHistory
  import opened DriveCalls

  function FileOf(s: Drives): Id -> Option<string> {
    (id: Id) => if id in s && s[id].kind.File? && Given(s[id].fileId) then s[id].fileId else None
  }

  function Recipient(userOf: map<string, string>, p: Permission): string -> Option<Permission> {
    (email: string) => if email in userOf then Some(p.(iid := userOf[email])) else None
  }

  /** The permissions of the users behind the emails; unknown emails are skipped. */
  function Recipients(emails: seq<string>, userOf: map<string, string>, p: Permission): (r: seq<Permission>)
    ensures AllUsers(r, userOf.Values)
  {
    if emails == [] then []
    else
      (match Recipient(userOf, p)(emails[0]) case Some(q) => [q] case None => [])
      + Recipients(emails[1..], userOf, p)
  }

  lemma {:induction false} RecipientsAre(emails: seq<string>, userOf: map<string, string>, p: Permission)
    ensures SharedWith(emails, userOf, p, Recipients(emails, userOf, p))
  {
    if emails != [] { RecipientsAre(emails[1..], userOf, p); }
  }

  class DriveStore {
    var drives: Drives
    var deletedFiles: set<string>

    ghost predicate Valid()
      reads this
    {
      Tree(drives)
    }

    constructor ()
      ensures Valid() && drives == map[] && deletedFiles == {}
    {
      drives, deletedFiles := map[], {};
      new;
      EmptyIsTree();
    }

    /** The part of createUser that gives a new user a default root. */
    method CreateUser(userId: string, newId: Id)
      requires Valid() && Fresh(drives, Action.CreateUser(userId, newId))
      modifies this`drives
      ensures Valid() && drives == Step(old(drives), Action.CreateUser(userId, newId))
      ensures drives == old(drives)[newId := Node(userId, [newId], true, "My Drive", "This is your own drive.", None,
                                                  Folder, None, [], [], None)]
    {
      StepKeepsTree(drives, Action.CreateUser(userId, newId));
      drives := drives[newId := Node(userId, [newId], true, "My Drive", "This is your own drive.", None, Folder,
                                     None, [], [], None)];
    }

    method FindParent(userId: string, parentId: Option<Id>) returns (r: Option<Id>)
      requires Valid()
      ensures r == ParentOf(drives, userId, parentId)
    {
      if parentId.Some? && parentId.value != "" {
        return if parentId.value in drives && drives[parentId.value].deletedTime == None then parentId else None;
      }
      if id :| id in drives && drives[id].managerId == userId && drives[id].parent == None {
        assert IsRoot(drives, userId, id);
        return Some(id);
      }
      assert forall id :: !IsRoot(drives, userId, id);
      return None;
    }

    /** The insertion and the update of the parent at the end of both create functions. */
    method Insert(parent: Id, id: Id, node: Node)
      requires Fits(drives, parent, id, node)
      modifies this`drives
      ensures drives == Attach(old(drives), parent, id, node)
    {
      drives := drives[id := node];
      drives := PushChild(drives, parent, id);
    }

    method CreateDriveFolder(requester: Option<User>, folderName: string, parentId: Option<Id>, restricted: bool,
                             description: string, newId: Id) returns (r: Result<Node, Error>)
      requires Valid() && newId !in drives
      modifies this`drives
      ensures Valid()
      ensures drives == Step(old(drives), CreateFolder(requester, folderName, parentId, restricted, description, newId))
      ensures var call := CreateFolder(requester, folderName, parentId, restricted, description, newId);
        Same(r, Outcome(old(drives), call))
      ensures FolderAnswered(old(drives), requester, folderName, parentId, restricted, description, newId,
                             Answer(r, drives))
      ensures r.Ok? ==> newId in drives && r.value == drives[newId]
      ensures r.Err? ==> drives == old(drives)
    {
      ghost var action := CreateFolder(requester, folderName, parentId, restricted, description, newId);
      StepKeepsTree(drives, action);
      FolderCall(drives, requester, folderName, parentId, restricted, description, newId);
      hide Tree, ParentOf, FolderAnswered;
      if requester == None { return Err(NotLoggedIn); }
      var parent := FindParent(requester.value.id, parentId);
      if parent == None || !MayWrite(drives[parent.value], requester.value) { return Err(NoPermission); }
      if drives[parent.value].kind != Folder { return Err(Malformed); }
      if KindNameTaken(drives, parent, Folder, folderName) { return Err(Malformed); }
      var found := drives[parent.value];
      var managerId := if found.managerId == requester.value.id then requester.value.id else found.managerId;
      var node := Node(managerId, found.path + [newId], restricted, folderName, description, None, Folder,
                       parent, [], found.sharedUsers, None);
      ParentIsLive(drives, requester.value.id, parentId);
      Insert(parent.value, newId, node);
      return Ok(node);
    }

    method CreateDriveFile(requester: Option<User>, parentId: Option<Id>, description: string, upload: Option<Upload>,
                           newId: Id) returns (r: Result<Node, Error>)
      requires Valid() && newId !in drives
      modifies this`drives
      ensures Valid() && drives == Step(old(drives), CreateFile(requester, parentId, description, upload, newId))
      ensures Same(r, Outcome(old(drives), CreateFile(requester, parentId, description, upload, newId)))
      ensures FileAnswered(old(drives), requester, parentId, description, upload, newId, Answer(r, drives))
      ensures r.Ok? ==> newId in drives && r.value == drives[newId]
      ensures r.Err? ==> drives == old(drives)
    {
      ghost var action := CreateFile(requester, parentId, description, upload, newId);
      StepKeepsTree(drives, action);
      FileCall(drives, requester, parentId, description, upload, newId);
      hide Tree, ParentOf, FileAnswered;
      if requester == None { return Err(NotLoggedIn); }
      var parent := FindParent(requester.value.id, parentId);
      if parent == None { return Err(NoPermission); }
      if drives[parent.value].managerId != requester.value.id { return Err(NoPermission); }
      if drives[parent.value].kind != Folder { return Err(Malformed); }
      if upload == None { return Err(Malformed); }
      if KindNameTaken(drives, parentId, File, upload.value.filename) { return Err(Malformed); }
      match upload.value.stored
      case Err(e) => return Err(e);
      case Ok(fileId) =>
        var found := drives[parent.value];
        var node := Node(requester.value.id, found.path + [newId], false, upload.value.filename, description,
                         Some(fileId), File,
                         parent, [], found.sharedUsers, None);
        ParentIsLive(drives, requester.value.id, parentId);
        Insert(parent.value, newId, node);
        return Ok(node);
    }

    /** Appends the files and the nodes found below root to the two lists. */
    method RecursiveFindDrives(root: Id, driveFileIds: seq<string>, driveIds: seq<Id>)
      returns (fileIds: seq<string>, ids: seq<Id>)
      requires Walkable(drives) && Live(drives, root)
      ensures ids == driveIds + Subtree(drives, root)
      ensures fileIds == driveFileIds + Collect(Subtree(drives, root), FileOf(drives))
      decreases Room(drives, root), 1
    {
      WalkStarts(drives, root);
      hide Walkable, Subtree, Below, Collect, Room, FileOf;
      fileIds, ids := driveFileIds, driveIds + [root];
      if drives[root].kind == File && Given(drives[root].fileId) {
        fileIds := fileIds + [drives[root].fileId.value];
        return;
      }
      if drives[root].kind == Folder {
        Associative(driveIds, [root], Below(drives, root, drives[root].children));
        fileIds, ids := VisitChildren(root, fileIds, ids);
      }
    }

    /** The loop over the children of a folder. */
    method VisitChildren(root: Id, driveFileIds: seq<string>, driveIds: seq<Id>)
      returns (fileIds: seq<string>, ids: seq<Id>)
      requires Walkable(drives) && Live(drives, root)
      ensures ids == driveIds + Below(drives, root, drives[root].children)
      ensures fileIds == driveFileIds + Collect(Below(drives, root, drives[root].children), FileOf(drives))
      decreases Room(drives, root), 0
    {
      hide Walkable, Subtree, Below, Collect, Room, FileOf;
      fileIds, ids := driveFileIds, driveIds;
      ghost var s, f := drives, FileOf(drives);
      var children := drives[root].children;
      ghost var restIds, restFiles := Below(s, root, children), Collect(Below(s, root, children), f);
      assert children[0..] == children;
      for k := 0 to |children|
        invariant restIds == Below(s, root, children[k..]) && restFiles == Collect(restIds, f)
        invariant ids + restIds == driveIds + Below(s, root, children)
        invariant fileIds + restFiles == driveFileIds + Collect(Below(s, root, children), f)
      {
        var child := children[k];
        WalkContinues(s, root, k);
        restIds := Below(s, root, children[k + 1..]);
        restFiles := Collect(restIds, f);
        if child in drives && drives[child].deletedTime == None {
          Associative(ids, Subtree(s, child), restIds);
          Associative(fileIds, Collect(Subtree(s, child), f), restFiles);
          fileIds, ids := RecursiveFindDrives(child, fileIds, ids);
        }
      }
      WalkEnds(s, root);
    }

    /** Renaming, describing and sharing; moving a node is not modelled. */
    method EditDrive(requester: Option<User>, driveId: Id, edit: DriveEdit, users: set<string>)
      returns (r: Result<Node, Error>, ids: seq<Id>)
      requires Valid()
      modifies this`drives
      ensures Valid() && drives == Step(old(drives), Action.EditDrive(requester, driveId, edit, users))
      ensures Same(r, Outcome(old(drives), Action.EditDrive(requester, driveId, edit, users)))
      ensures EditAnswered(old(drives), requester, driveId, edit, users, Answer(r, drives))
      ensures r.Err? ==> drives == old(drives)
      ensures r.Ok? ==> Live(old(drives), driveId) && r.value == Edited(old(drives)[driveId], edit)
      ensures r.Ok? ==> ids == if edit.sharedUsers.Some? then Subtree(old(drives), driveId) else [driveId]
    {
      ids := [];
      ghost var action := Action.EditDrive(requester, driveId, edit, users);
      StepKeepsTree(drives, action);
      EditCall(drives, requester, driveId, edit, users);
      hide Tree, Subtree, SetShared, FolderResult, FileResult, ShareResult, DeleteResult, EditAnswered;
      if requester == None { return Err(NotLoggedIn), []; }
      if driveId !in drives || drives[driveId].deletedTime != None { return Err(NoPermission), []; }
      var drive := drives[driveId];
      if !requester.value.isAdmin && drive.managerId != requester.value.id { return Err(NoPermission), []; }
      if Given(edit.name) && NameTaken(drives, drive.parent, edit.name.value) { return Err(Malformed), []; }
      if edit.sharedUsers.Some? && !AllUsers(edit.sharedUsers.value, users) { return Err(NonExistent), []; }
      if !Given(edit.name) && !Given(edit.description) && edit.sharedUsers == None { return Err(Malformed), []; }
      EditedKeepsTree(drives, driveId, edit);
      EditedKeepsSubtree(drives, driveId, edit);
      drives := drives[driveId := Edited(drive, edit)];
      if edit.sharedUsers.Some? {
        var _, found := RecursiveFindDrives(driveId, [], []);
        ids := found;
        assert ids == Subtree(drives, driveId);
        drives := SetShared(drives, ids, edit.sharedUsers.value);
      } else {
        ids := [driveId];
      }
      return Ok(Edited(drive, edit)), ids;
    }

    /** Shares the node and everything below it, one edit for each node found. */
    method ShareDriveToUserViaEmail(requester: Option<User>, userEmails: seq<string>, driveId: Id,
                                    permission: Permission, userOf: map<string, string>)
      returns (r: Result<seq<Id>, Error>)
      requires Valid()
      modifies this`drives
      ensures Valid()
      ensures drives == Step(old(drives), ShareDrive(requester, driveId, Recipients(userEmails, userOf, permission)))
      ensures match ShareResult(old(drives), requester, driveId, Recipients(userEmails, userOf, permission))
        case Ok(_) => r == Ok(Subtree(old(drives), driveId))
        case Err(e) => r == Err(e)
      ensures r.Err? ==> drives == old(drives)
      ensures requester == None ==> r == Err(NotLoggedIn)
      ensures requester.Some? ==>
        if driveId in old(drives) && old(drives)[driveId].deletedTime == None
           && old(drives)[driveId].managerId == requester.value.id
        then
          r.Ok? && SharedByEmail(old(drives), drives, driveId, userEmails, userOf, permission)
        else r == Err(NoPermission)
    {
      var userIds := Recipients(userEmails, userOf, permission);
      StepKeepsTree(drives, ShareDrive(requester, driveId, userIds));
      ShareCall(drives, requester, driveId, userIds);
      RecipientsAre(userEmails, userOf, permission);
      hide Tree, SetShared, FolderResult, FileResult, EditResult, DeleteResult, SharedWith, SharedBelow;
      if requester == None { return Err(NotLoggedIn); }
      if driveId !in drives || drives[driveId].deletedTime != None || drives[driveId].managerId != requester.value.id {
        return Err(NoPermission);
      }
      var _, driveIds := RecursiveFindDrives(driveId, [], []);
      assert driveIds == Subtree(drives, driveId) && driveIds[0] == driveId;
      hide Subtree, Outcome, Step;
      ghost var shared := SetShared(drives, driveIds, userIds);
      for k := 0 to |driveIds|
        invariant drives == if k == 0 then old(drives) else shared
      {
        SharingStep(old(drives), requester.value, driveId, userIds, userOf.Values, driveIds[k]);
        assert requester == Some(requester.value);
        var edited, _ := EditDrive(requester, driveIds[k], DriveEdit(None, None, Some(userIds)), userOf.Values);
      }
      return Ok(driveIds);
    }

    /** The update of the files collection with the parent's id matches no file, so the parent keeps the id. */
    method DeleteDrive(requester: Option<User>, driveId: Id, now: int) returns (r: Result<Node, Error>)
      requires Valid()
      modifies this
      ensures Valid() && drives == Step(old(drives), Action.DeleteDrive(requester, driveId, now))
      ensures Same(r, Outcome(old(drives), Action.DeleteDrive(requester, driveId, now)))
      ensures r.Ok? ==> Live(old(drives), driveId) && r.value == old(drives)[driveId]
      ensures DeleteAnswered(old(drives), requester, driveId, now, Answer(r, drives))
      ensures r.Err? ==> deletedFiles == old(deletedFiles) && drives == old(drives)
      ensures r.Ok? ==> deletedFiles == old(deletedFiles) + FilesBelow(old(drives), driveId)
      ensures r.Ok? ==>
        deletedFiles == old(deletedFiles) + set f | f in Collect(Subtree(old(drives), driveId), FileOf(old(drives)))
    {
      StepKeepsTree(drives, Action.DeleteDrive(requester, driveId, now));
      DeleteCall(drives, requester, driveId, now);
      if Live(drives, driveId) { FilesFound(drives, driveId); }
      DeletionSteps(drives, requester, driveId, now);
      hide DeleteAnswered, FilesBelow, DeleteResult, Outcome, Step, Tree, Collect, Subtree, SetDeleted;
      if requester == None { return Err(NotLoggedIn); }
      if driveId !in drives || drives[driveId].deletedTime != None { return Err(NonExistent); }
      var drive := drives[driveId];
      if drive.restricted || drive.parent == None { return Err(NoPermission); }
      var driveFileIds, driveIds := RecursiveFindDrives(driveId, [], []);
      assert driveIds == Subtree(drives, driveId) && driveFileIds == Collect(Subtree(drives, driveId), FileOf(drives));
      drives := SetDeleted(drives, driveIds, now);
      deletedFiles := deletedFiles + set f | f in driveFileIds;
      return Ok(drive);
    }
  }

  /** The collection a call leaves, or its error. */
  ghost function Answer(r: Result<Node, Error>, drives: Drives): Result<Drives, Error> {
    match r case Ok(_) => Ok(drives) case Err(e) => Err(e)
  }

  lemma DeletionSteps(s: Drives, requester: Option<User>, id: Id, time: int)
    requires Tree(s)
    ensures var r, action := DeleteResult(s, requester, id, time), Action.DeleteDrive(requester, id, time);
      && Outcome(s, action) == r && Step(s, action) == (match r case Ok(t) => t case Err(_) => s)
      && r == if requester == None then Err(NotLoggedIn)
              else if !Live(s, id) then Err(NonExistent)
              else if s[id].restricted || s[id].parent == None then Err(NoPermission)
              else Ok(SetDeleted(s, Subtree(s, id), time))
  {
  }

  /** The files of the live nodes at and below the node. */
  ghost function FilesBelow(s: Drives, id: Id): set<string> {
    set x | x in s && OnPath(s, id, x) && s[x].kind == File && s[x].fileId.Some? && s[x].fileId.value != "" ::
      s[x].fileId.value
  }

  lemma {:induction false} CollectHolds<T, U>(s: seq<T>, f: T -> Option<U>, u: U)
    ensures u in Collect(s, f) <==> exists x :: x in s && f(x) == Some(u)
  {
    if s != [] {
      CollectHolds(s[1..], f, u);
      assert forall x :: x in s <==> x == s[0] || x in s[1..];
    }
  }

  lemma FilesFound(s: Drives, id: Id)
    requires Tree(s) && Live(s, id)
    ensures (set f | f in Collect(Subtree(s, id), FileOf(s))) == FilesBelow(s, id)
  {
    forall x ensures x in Subtree(s, id) <==> OnPath(s, id, x) { WalkAgreesWithPath(s, id, x); }
    hide Tree, Subtree, Collect, OnPath;
    forall f ensures f in Collect(Subtree(s, id), FileOf(s)) <==> f in FilesBelow(s, id) {
      CollectHolds(Subtree(s, id), FileOf(s), f);
      if x :| x in Subtree(s, id) && FileOf(s)(x) == Some(f) { assert OnPath(s, id, x); }
    }
  }

  /** A call fails with the error of its outcome. */
  predicate Same(r: Result<Node, Error>, outcome: Result<Drives, Error>) {
    match r case Ok(_) => outcome.Ok? case Err(e) => outcome == Err(e)
  }

  lemma Associative<T>(a: seq<T>, b: seq<T>, c: seq<T>)
    ensures a + b + c == a + (b + c)
  {
  }

  // ----- the steps of the walk ----------------------------------------------

  lemma WalkStarts(s: Drives, root: Id)
    requires Walkable(s) && Live(s, root)
    ensures Subtree(s, root) == [root] + if s[root].kind.Folder? then Below(s, root, s[root].children) else []
    ensures s[root].kind.Folder? ==>
              Collect(Subtree(s, root), FileOf(s)) == Collect(Below(s, root, s[root].children), FileOf(s))
    ensures s[root].kind.File? ==>
      Collect(Subtree(s, root), FileOf(s)) == if Given(s[root].fileId) then [s[root].fileId.value] else []
  {
    hide Walkable, Below;
    var sub := Subtree(s, root);
    assert Collect(sub[1..], FileOf(s))
        == if s[root].kind.Folder? then Collect(Below(s, root, s[root].children), FileOf(s)) else [] by {
      assert s[root].kind.Folder? ==> sub[1..] == Below(s, root, s[root].children);
    }
  }

  lemma WalkContinues(s: Drives, root: Id, k: nat)
    requires Walkable(s) && Live(s, root) && k < |s[root].children|
    ensures var c, children := s[root].children[k], s[root].children;
      if Live(s, c) then
        && Room(s, c) < Room(s, root)
        && Below(s, root, children[k..]) == Subtree(s, c) + Below(s, root, children[k + 1..])
        && Collect(Below(s, root, children[k..]), FileOf(s))
           == Collect(Subtree(s, c), FileOf(s)) + Collect(Below(s, root, children[k + 1..]), FileOf(s))
      else Below(s, root, children[k..]) == Below(s, root, children[k + 1..])
  {
    var c, children := s[root].children[k], s[root].children;
    assert children[k..][0] == c && children[k..][1..] == children[k + 1..];
    if Live(s, c) {
      ListedPath(s, root, c);
      CollectConcat(Subtree(s, c), Below(s, root, children[k + 1..]), FileOf(s));
    }
  }

  lemma WalkEnds(s: Drives, root: Id)
    requires Walkable(s) && Live(s, root)
    ensures Below(s, root, s[root].children[|s[root].children|..]) == []
    ensures Collect<Id, string>([], FileOf(s)) == []
  {
  }

  // ----- the walk does not see names and permissions ------------------------

  lemma {:induction false} SamePlacesSameSubtree(s: Drives, t: Drives, id: Id)
    requires Tree(s) && Tree(t) && SamePlaces(s, t) && Live(s, id)
    ensures Subtree(t, id) == Subtree(s, id)
    decreases Room(s, id), |s[id].children| + 1
  {
    SamePlacesSameBelow(s, t, id, s[id].children);
  }

  lemma {:induction false} SamePlacesSameBelow(s: Drives, t: Drives, id: Id, children: seq<Id>)
    requires Tree(s) && Tree(t) && SamePlaces(s, t) && Live(s, id) && forall c | c in children :: c in s[id].children
    ensures Below(t, id, children) == Below(s, id, children)
    decreases Room(s, id), |children|
  {
    if children != [] {
      SamePlacesSameBelow(s, t, id, children[1..]);
      if Live(s, children[0]) {
        ListedPath(s, id, children[0]);
        SamePlacesSameSubtree(s, t, children[0]);
      }
    }
  }

  lemma EditedKeepsSubtree(s: Drives, id: Id, edit: DriveEdit)
    requires Tree(s) && Live(s, id) && Tree(s[id := Edited(s[id], edit)])
    ensures Subtree(s[id := Edited(s[id], edit)], id) == Subtree(s, id)
  {
    hide Tree;
    SamePlacesSameSubtree(s, s[id := Edited(s[id], edit)], id);
  }

  /** Below a node that is below another one are only nodes that are below this one. */
  lemma SubtreeWithin(s: Drives, id: Id, x: Id, y: Id)
    requires Tree(s) && Live(s, id) && x in Subtree(s, id) && Live(s, x) && y in Subtree(s, x)
    ensures y in Subtree(s, id)
  {
    WalkAgreesWithPath(s, id, x);
    WalkAgreesWithPath(s, x, y);
    WalkAgreesWithPath(s, id, y);
    var k :| 0 <= k < |s[x].path| && s[x].path[k] == id;
    var j :| 0 <= j < |s[y].path| && s[y].path[j] == x;
    AncestorPath(s, y, j);
    assert s[y].path[..j + 1][k] == id;
  }

  /** The first edit of the sharing loop shares everything. */
  lemma SharingFirst(s: Drives, requester: User, id: Id, shared: seq<Permission>, users: set<string>)
    requires Tree(s) && Live(s, id) && s[id].managerId == requester.id && AllUsers(shared, users)
    ensures Tree(SetShared(s, Subtree(s, id), shared))
    ensures EditResult(s, Some(requester), id, DriveEdit(None, None, Some(shared)), users)
         == Ok(SetShared(s, Subtree(s, id), shared))
  {
    SharedKeepsTree(s, Subtree(s, id), shared);
    assert id in Subtree(s, id);
    hide Tree, Subtree;
    SetSharedTwice(s, id, Subtree(s, id), shared);
    hide SetShared, Edited;
  }

  /** The others change nothing. */
  lemma SharingAgain(s: Drives, requester: User, id: Id, shared: seq<Permission>, users: set<string>, x: Id)
    requires Tree(s) && Live(s, id) && s[id].managerId == requester.id && AllUsers(shared, users)
    requires x in Subtree(s, id)
    requires Tree(SetShared(s, Subtree(s, id), shared))
    ensures EditResult(SetShared(s, Subtree(s, id), shared), Some(requester), x,
                       DriveEdit(None, None, Some(shared)), users)
         == Ok(SetShared(s, Subtree(s, id), shared))
  {
    var t := SetShared(s, Subtree(s, id), shared);
    OneManagerBelow(s, id, x);
    SharedPlaces(s, Subtree(s, id), shared);
    hide Tree, Subtree, SamePlaces, SetShared, EditResult;
    SamePlacesSameSubtree(s, t, x);
    forall y | y in Subtree(t, x) ensures y in Subtree(s, id) { SubtreeWithin(s, id, x, y); }
    SharingDone(t, requester, x, shared, users);
  }

  lemma SharedPlaces(s: Drives, ids: seq<Id>, shared: seq<Permission>)
    ensures SamePlaces(s, SetShared(s, ids, shared))
    ensures forall y | y in ids && y in SetShared(s, ids, shared) :: SetShared(s, ids, shared)[y].sharedUsers == shared
    ensures forall y | Live(s, y) ::
      Live(SetShared(s, ids, shared), y) && SetShared(s, ids, shared)[y].managerId == s[y].managerId
  {
  }

  lemma OneManagerBelow(s: Drives, id: Id, x: Id)
    requires Tree(s) && Live(s, id) && x in Subtree(s, id)
    ensures Live(s, x) && s[x].managerId == s[id].managerId
  {
    WalkAgreesWithPath(s, id, x);
    var k :| 0 <= k < |s[x].path| && s[x].path[k] == id;
    OneManager(s, x, k);
  }

  lemma SharingDone(t: Drives, requester: User, x: Id, shared: seq<Permission>, users: set<string>)
    requires Tree(t) && Live(t, x) && t[x].managerId == requester.id && AllUsers(shared, users)
    requires forall y | y in Subtree(t, x) && y in t :: t[y].sharedUsers == shared
    ensures EditResult(t, Some(requester), x, DriveEdit(None, None, Some(shared)), users) == Ok(t)
  {
    assert x in Subtree(t, x);
    hide Tree, Subtree;
    SetSharedTwice(t, x, Subtree(t, x), shared);
    hide SetShared, Edited;
  }

  lemma SharingStep(s: Drives, requester: User, id: Id, shared: seq<Permission>, users: set<string>, x: Id)
    requires Tree(s) && Live(s, id) && s[id].managerId == requester.id && AllUsers(shared, users)
    requires x in Subtree(s, id)
    ensures Tree(SetShared(s, Subtree(s, id), shared))
    ensures Step(s, Action.EditDrive(Some(requester), id, DriveEdit(None, None, Some(shared)), users))
         == SetShared(s, Subtree(s, id), shared)
    ensures Step(SetShared(s, Subtree(s, id), shared),
                 Action.EditDrive(Some(requester), x, DriveEdit(None, None, Some(shared)), users))
         == SetShared(s, Subtree(s, id), shared)
  {
    hide Tree, EditResult, SetShared, Subtree;
    SharingFirst(s, requester, id, shared, users);
    SharingAgain(s, requester, id, shared, users, x);
  }

  /** Setting permissions that all these nodes have already, or all are about to get. */
  lemma SetSharedTwice(t: Drives, x: Id, ids: seq<Id>, shared: seq<Permission>)
    requires x in t && x in ids
    ensures var edit := DriveEdit(None, None, Some(shared));
      SetShared(t[x := Edited(t[x], edit)], ids, shared) == SetShared(t, ids, shared)
    ensures (forall y | y in ids && y in t :: t[y].sharedUsers == shared) ==> SetShared(t, ids, shared) == t
  {
  }
}
