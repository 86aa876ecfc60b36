/** The operations of `dataCore.ts` and `studyCore.ts` on the stored collections. The clock, new
    uuids, input validation and value parsing are parameters. */
module StudyCore {
  import opened Sequences
  import opened Documents
  import opened Json
  import opened StudyData
  import opened DataReads

  datatype FieldEdit = FieldEdit(fieldName: Option<string>, dataType: Option<string>, properties: Option<seq<Property>>)

  datatype DataInput = DataInput(fieldId: string, value: string, properties: map<string, Value>)

  /** A value is parsed or refused, or the parser throws, as it does on malformed JSON. */
  datatype Parse = Parsed(value: Value) | Refused | Throws

  /** Everything the upload loop reads: the clip's index gives its uuid and its time. */
  datatype Upload = Upload(studyId: string, requester: string, available: map<string, FieldDoc>,
                           allowed: DataInput -> bool, parse: (FieldInfo, DataInput) -> Parse,
                           ids: nat -> string, clock: nat -> int)
  {
    function Verdict(clip: DataInput): Result<Value, Error> {
      if !allowed(clip) then Err(NoPermission)
      else if clip.fieldId !in available then Err(NonExistent)
      else match parse(available[clip.fieldId].info, clip)
        case Parsed(v) => Ok(v)
        case Refused => Err(Malformed)
        case Throws => Err(Thrown)
    }

    function Answer(clip: DataInput): Option<Error> {
      match Verdict(clip) case Ok(_) => None case Err(e) => Some(e)
    }

    /** The first clip on which the parser throws. */
    function FirstThrown(clips: seq<DataInput>): (k: Option<nat>)
      ensures k.Some? ==> k.value < |clips| && Verdict(clips[k.value]) == Err(Thrown)
    {
      if clips == [] then None
      else if Verdict(clips[0]) == Err(Thrown) then Some(0)
      else match FirstThrown(clips[1..]) case Some(k) => Some(k + 1) case None => None
    }

    lemma {:induction false} FirstThrownAt(clips: seq<DataInput>, k: nat)
      requires k < |clips| && Verdict(clips[k]) == Err(Thrown)
      requires forall i | 0 <= i < k :: Verdict(clips[i]) != Err(Thrown)
      ensures FirstThrown(clips) == Some(k)
    {
      hide Verdict;
      if k > 0 {
        assert forall i | 0 <= i < k - 1 :: clips[1..][i] == clips[i + 1];
        FirstThrownAt(clips[1..], k - 1);
      }
    }

    lemma NothingThrown(clips: seq<DataInput>)
      requires forall i | 0 <= i < |clips| :: Verdict(clips[i]) != Err(Thrown)
      ensures FirstThrown(clips) == None
    {
      hide Verdict;
    }

    /** The documents the first n clips store. */
    function Stored(clips: seq<DataInput>, n: nat): (docs: seq<DataDoc>)
      requires n <= |clips|
      ensures forall d | d in docs :: d.dataVersion == None && d.studyId == studyId && d.life.deletedTime == None
    {
      if n == 0 then []
      else
        var clip, before := clips[n - 1], Stored(clips, n - 1);
        match Verdict(clip)
        case Err(_) => before
        case Ok(v) => before + [DataDoc(ids(n - 1), studyId, clip.fieldId, None, v, clip.properties,
                                        Life(clock(n - 1), requester, None))]
    }
  }

  lemma NothingStored(u: Upload, clips: seq<DataInput>)
    ensures u.Stored(clips, 0) == []
  {
  }

  lemma StoredNext(u: Upload, clips: seq<DataInput>, n: nat)
    requires n < |clips|
    ensures u.Verdict(clips[n]).Err? ==> u.Stored(clips, n + 1) == u.Stored(clips, n)
    ensures u.Verdict(clips[n]).Ok? ==>
              u.Stored(clips, n + 1)
              == u.Stored(clips, n) + [DataDoc(u.ids(n), u.studyId, clips[n].fieldId, None, u.Verdict(clips[n]).value,
                                               clips[n].properties, Life(u.clock(n), u.requester, None))]
  {
    hide Upload.Verdict;
  }

  /** Of n documents put into the batches one by one, how many wait to be sent off. */
  function Waiting(full: nat -> bool, n: nat): (w: nat)
    ensures w <= n
  {
    if n == 0 then 0
    else if full(Waiting(full, n - 1) + 1) then 0 else Waiting(full, n - 1) + 1
  }

  function SentOff(docs: seq<DataDoc>, full: nat -> bool): (sent: seq<DataDoc>)
    ensures forall d | d in sent :: d in docs
  {
    docs[..|docs| - Waiting(full, |docs|)]
  }

  lemma SentOffIs(sent: seq<DataDoc>, bulk: seq<DataDoc>, full: nat -> bool)
    requires |bulk| == Waiting(full, |sent + bulk|)
    ensures SentOff(sent + bulk, full) == sent
  {
  }

  function UploadFor(db: Db, reader: Reader, studyId: string, allowed: DataInput -> bool,
                     parse: (FieldInfo, DataInput) -> Parse, ids: nat -> string, clock: nat -> int): Upload
    requires studyId in db.studies
  {
    var found := FieldsAt(db, reader, studyId, DataVersions(db.studies[studyId], Default), None);
    Upload(studyId, reader.requester, ById(found), allowed, parse, ids, clock)
  }

  predicate IsDecimal(s: string) {
    AllDigits(s) || exists i | 0 <= i < |s| :: s[i] == '.' && AllDigits(s[..i]) && AllDigits(s[i + 1..])
  }

  predicate OneDot(s: string) { forall i, j | 0 <= i < j < |s| :: s[i] != '.' || s[j] != '.' }

  predicate DigitOrDot(c: char) { c == '.' || '0' <= c <= '9' }

  /** Digits, with one dot at most, which stands between digits. */
  lemma DecimalIs(s: string)
    ensures IsDecimal(s) <==>
      s != "" && s[0] != '.' && s[|s| - 1] != '.' && OneDot(s) && forall i | 0 <= i < |s| :: DigitOrDot(s[i])
  {
    if '.' in s {
      var i := IndexOf(s, '.');
      DecimalAt(s, i);
      assert s[i] == '.' && !AllDigits(s);
      forall k | i < k < |s| ensures !AllDigits(s[..k]) { assert s[..k][i] == s[i]; }
    }
  }

  lemma DecimalAt(s: string, i: nat)
    requires i < |s| && s[i] == '.' && forall j | 0 <= j < i :: s[j] != '.'
    ensures AllDigits(s[..i]) && AllDigits(s[i + 1..]) <==>
      s[0] != '.' && s[|s| - 1] != '.' && OneDot(s) && forall k | 0 <= k < |s| :: DigitOrDot(s[k])
  {
    var front, back := s[..i], s[i + 1..];
    assert forall k | 0 <= k < i :: s[k] == front[k];
    assert forall k | i < k < |s| :: s[k] == back[k - i - 1];
  }

  function OrElse<T>(o: Option<T>, otherwise: T): T {
    match o case Some(t) => t case None => otherwise
  }

  function IsField(studyId: string, fieldId: string): FieldDoc -> bool {
    (f: FieldDoc) => f.studyId == studyId && f.fieldId == fieldId
  }

  function IsAlive(studyId: string, fieldId: string): FieldDoc -> bool {
    (f: FieldDoc) => f.studyId == studyId && f.fieldId == fieldId && f.life.deletedTime == None
  }

  /** Of the newest documents, the first stored. */
  ghost predicate FirstNewest(fields: seq<FieldDoc>, studyId: string, fieldId: string, f: FieldDoc) {
    exists i | 0 <= i < |fields| ::
      && fields[i] == f && IsField(studyId, fieldId)(f)
      && (forall j | 0 <= j < |fields| && IsField(studyId, fieldId)(fields[j]) ::
            fields[j].life.createdTime <= f.life.createdTime)
      && forall j | 0 <= j < i && IsField(studyId, fieldId)(fields[j]) ::
           fields[j].life.createdTime < f.life.createdTime
  }

  /** An edit starts from the first stored document that is no tombstone, not from the newest. */
  ghost predicate OldestAlive(fields: seq<FieldDoc>, studyId: string, fieldId: string, f: FieldDoc) {
    exists i | 0 <= i < |fields| ::
      && fields[i] == f && f.studyId == studyId && f.fieldId == fieldId && f.life.deletedTime == None
      && forall j | 0 <= j < i && fields[j].studyId == studyId && fields[j].fieldId == fieldId ::
           fields[j].life.deletedTime != None
  }

  /** Where an element of the filtered sequence comes from: of those that pass, the ones before it come before it. */
  lemma {:induction false} FilterIndex<T>(s: seq<T>, p: T -> bool, i: nat) returns (k: nat)
    requires i < |Filter(s, p)|
    ensures k < |s| && s[k] == Filter(s, p)[i] && p(s[k])
    ensures forall j | 0 <= j < k && p(s[j]) :: s[j] in Filter(s, p)[..i]
  {
    var t := s[1..];
    if p(s[0]) && i == 0 {
      k := 0;
    } else {
      var rest := if p(s[0]) then i - 1 else i;
      var m := FilterIndex(t, p, rest);
      k := m + 1;
      forall j | 0 <= j < k && p(s[j]) ensures s[j] in Filter(s, p)[..i] {
        if j > 0 {
          assert t[j - 1] == s[j] && s[j] in Filter(t, p)[..rest];
          if p(s[0]) { assert Filter(s, p)[..i] == [s[0]] + Filter(t, p)[..rest]; }
        } else {
          assert Filter(s, p)[..i][0] == s[0];
        }
      }
    }
  }

  lemma FirstOfFound(fields: seq<FieldDoc>, studyId: string, fieldId: string)
    ensures var found := Filter(fields, IsAlive(studyId, fieldId));
      if found == [] then forall f :: !OldestAlive(fields, studyId, fieldId, f)
      else found[0] in fields && OldestAlive(fields, studyId, fieldId, found[0])
  {
    var found := Filter(fields, IsAlive(studyId, fieldId));
    forall f ensures f in found <==> f in fields && IsAlive(studyId, fieldId)(f) {
      FilterMember(fields, IsAlive(studyId, fieldId), f);
    }
    hide Filter;
    if found != [] {
      assert found[0] in found;
      var k := FilterIndex(fields, IsAlive(studyId, fieldId), 0);
      assert found[..0] == [];
      assert forall j | 0 <= j < k :: !IsAlive(studyId, fieldId)(fields[j]);
      assert OldestAlive(fields, studyId, fieldId, fields[k]);
    } else {
      forall i | 0 <= i < |fields| ensures !IsAlive(studyId, fieldId)(fields[i]) {
        assert fields[i] in fields && fields[i] !in found;
      }
    }
  }

  /** Every tombstone of a field has a live document of the field beside it. */
  ghost predicate TombstonesHaveLive(fields: seq<FieldDoc>) {
    forall i | 0 <= i < |fields| && fields[i].life.deletedTime != None ::
      exists k | 0 <= k < |fields| :: IsAlive(fields[i].studyId, fields[i].fieldId)(fields[k])
  }

  lemma PushKeepsLive(fields: seq<FieldDoc>, f: FieldDoc)
    requires TombstonesHaveLive(fields)
    requires f.life.deletedTime == None || exists k | 0 <= k < |fields| :: IsAlive(f.studyId, f.fieldId)(fields[k])
    ensures TombstonesHaveLive(fields + [f])
  {
    var all := fields + [f];
    forall i | 0 <= i < |all| && all[i].life.deletedTime != None
      ensures exists k | 0 <= k < |all| :: IsAlive(all[i].studyId, all[i].fieldId)(all[k])
    {
      var k :| 0 <= k < |fields| && IsAlive(all[i].studyId, all[i].fieldId)(fields[k]);
      assert all[k] == fields[k];
    }
  }

  lemma StampKeepsLive(fields: seq<FieldDoc>, studyId: string, v: string)
    requires TombstonesHaveLive(fields)
    ensures TombstonesHaveLive(Map(fields, StampField(studyId, v)))
  {
    var all := Map(fields, StampField(studyId, v));
    forall i | 0 <= i < |all| && all[i].life.deletedTime != None
      ensures exists k | 0 <= k < |all| :: IsAlive(all[i].studyId, all[i].fieldId)(all[k])
    {
      var k :| 0 <= k < |fields| && IsAlive(fields[i].studyId, fields[i].fieldId)(fields[k]);
      assert IsAlive(all[i].studyId, all[i].fieldId)(all[k]);
    }
  }

  function Merged(edit: FieldEdit, info: FieldInfo): FieldInfo {
    FieldInfo(OrElse(edit.fieldName, info.fieldName), OrElse(edit.dataType, info.dataType),
              OrElse(edit.properties, info.properties))
  }

  /** What the edit gives is taken, the rest is kept. */
  ghost predicate IsMerged(edit: FieldEdit, before: FieldInfo, after: FieldInfo) {
    && after.fieldName == (if edit.fieldName.Some? then edit.fieldName.value else before.fieldName)
    && after.dataType == (if edit.dataType.Some? then edit.dataType.value else before.dataType)
    && after.properties == if edit.properties.Some? then edit.properties.value else before.properties
  }

  lemma MergedIs(edit: FieldEdit, info: FieldInfo)
    ensures IsMerged(edit, info, Merged(edit, info))
  {
  }

  ghost predicate NothingUnpublished(db: Db, studyId: string) {
    && (forall d | d in db.data && d.studyId == studyId :: d.dataVersion != None)
    && forall f | f in db.fields && f.studyId == studyId :: f.dataVersion != None
  }

  lemma StampNothing(db: Db, studyId: string, v: string)
    ensures NothingUnpublished(db, studyId) ==>
      Map(db.data, StampData(studyId, v)) == db.data && Map(db.fields, StampField(studyId, v)) == db.fields
  {
    if NothingUnpublished(db, studyId) {
      forall i | 0 <= i < |db.data|
        ensures StampData(studyId, v)(db.data[i]) == db.data[i]
      {
        assert db.data[i] in db.data;
      }
      forall i | 0 <= i < |db.fields| ensures StampField(studyId, v)(db.fields[i]) == db.fields[i] {
        assert db.fields[i] in db.fields;
      }
    }
  }

  /** The version is the study's last one, the current one is the next after the one before, and exactly the unpublished
      documents of the study carry the version; nothing else changes. */
  ghost predicate Published(before: Db, after: Db, studyId: string, v: Version)
    requires studyId in before.studies
  {
    var study := before.studies[studyId];
    && after.studies
       == before.studies[studyId := Study(study.dataVersions + [v], study.currentDataVersion + 1)]
    && |after.fields| == |before.fields| && |after.data| == |before.data|
    && (forall i | 0 <= i < |before.fields| ::
          var f := before.fields[i];
          if f.studyId == studyId && f.dataVersion == None then after.fields[i] == f.(dataVersion := Some(v.id))
          else after.fields[i] == f)
    && forall i | 0 <= i < |before.data| ::
         var d := before.data[i];
         if d.studyId == studyId && d.dataVersion == None then after.data[i] == d.(dataVersion := Some(v.id))
         else after.data[i] == d
  }

  lemma PublishIs(db: Db, studyId: string, v: Version)
    requires studyId in db.studies
    ensures Published(db, Publish(db, studyId, v), studyId, v)
  {
  }

  /** Version i has the id and no other one has. */
  predicate IsOnlyVersion(study: Study, i: int, versionId: string) {
    && 0 <= i < |study.dataVersions| && study.dataVersions[i].id == versionId
    && forall k | 0 <= k < |study.dataVersions| && k != i :: study.dataVersions[k].id != versionId
  }

  function WithId(versionId: string): Version -> bool { (v: Version) => v.id == versionId }

  lemma OneVersionIff(study: Study, versionId: string)
    ensures |Filter(study.dataVersions, WithId(versionId))| == 1 <==> exists i :: IsOnlyVersion(study, i, versionId)
  {
    var s, p := study.dataVersions, WithId(versionId);
    if |Filter(s, p)| == 1 {
      var i := OnlyIndex(s, p);
      assert IsOnlyVersion(study, i, versionId);
    }
    if i :| IsOnlyVersion(study, i, versionId) {
      assert s == s[..i] + ([s[i]] + s[i + 1..]);
      FilterConcat(s[..i], [s[i]] + s[i + 1..], p);
      FilterConcat([s[i]], s[i + 1..], p);
      FilterNone(s[..i], p);
      FilterNone(s[i + 1..], p);
      assert [s[i]][1..] == [];
    }
  }

  lemma NothingNewest(fields: seq<FieldDoc>, studyId: string, fieldId: string)
    requires Filter(fields, IsField(studyId, fieldId)) == []
    ensures forall f :: !FirstNewest(fields, studyId, fieldId, f)
  {
    forall f | f in fields ensures !IsField(studyId, fieldId)(f) { FilterMember(fields, IsField(studyId, fieldId), f); }
  }

  lemma NewestIsStored(fields: seq<FieldDoc>, studyId: string, fieldId: string, f: FieldDoc)
    requires FirstNewest(fields, studyId, fieldId, f)
    ensures exists k | 0 <= k < |fields| :: fields[k] == f && IsField(studyId, fieldId)(fields[k])
  {
  }

  /** Sorting newest first puts the first of the newest documents at the head, and there is only one such. */
  lemma HeadIsFirstNewest(fields: seq<FieldDoc>, studyId: string, fieldId: string)
    requires Filter(fields, IsField(studyId, fieldId)) != []
    ensures var found := StableSort(Filter(fields, IsField(studyId, fieldId)), NewerFirst(FieldTime()));
      found != [] && forall f :: FirstNewest(fields, studyId, fieldId, f) <==> f == found[0]
  {
    var p, le := IsField(studyId, fieldId), NewerFirst(FieldTime());
    var own := Filter(fields, p);
    var i := SortedHeadIsFirstLeast(own, le);
    var k := FilterIndex(fields, p, i);
    forall g | g in fields && p(g) ensures g.life.createdTime <= fields[k].life.createdTime {
      FilterMember(fields, p, g);
      var j :| 0 <= j < |own| && own[j] == g;
      assert le(own[i], own[j]);
    }
    forall j | 0 <= j < k && p(fields[j]) ensures fields[j].life.createdTime < fields[k].life.createdTime {
      var m :| 0 <= m < i && own[m] == fields[j];
      assert !le(own[m], own[i]);
    }
    hide Filter, StableSort;
    assert FirstNewest(fields, studyId, fieldId, fields[k]);
  }

  class StudyStore {
    var studies: map<string, Study>
    var fields: seq<FieldDoc>
    var data: seq<DataDoc>

    ghost function View(): Db
      reads this
    {
      Db(studies, fields, data)
    }

    constructor ()
      ensures View() == Db(map[], [], [])
    {
      studies, fields, data := map[], [], [];
    }

    method CreateStudy(isAdmin: bool, studyId: string, nameUsed: bool) returns (r: Result<(), Error>)
      requires studyId !in studies
      modifies this
      ensures r.Ok? <==> isAdmin && !nameUsed
      ensures r.Err? ==> r.error == if isAdmin then Malformed else NoPermission
      ensures View() == if r.Ok? then old(View()).(studies := old(studies)[studyId := Study([], -1)]) else old(View())
      ensures r.Ok? ==> Step(old(View()), View())
    {
      if !isAdmin { return Err(NoPermission); }
      if nameUsed { return Err(Malformed); }
      studies := studies[studyId := Study([], -1)];
      assert OpensStudy(old(View()), View(), studyId);
      return Ok(());
    }

    method CreateField(reader: Reader, studyId: string, fieldId: string, info: FieldInfo, valid: bool,
                       id: string, now: int) returns (r: Result<FieldDoc, Error>)
      modifies this`fields
      ensures r.Ok? <==> HasRight(reader, fieldId, 2) && valid
      ensures r.Err? ==> r.error == if HasRight(reader, fieldId, 2) then Malformed else NoPermission
      ensures fields == if r.Ok? then old(fields) + [r.value] else old(fields)
      ensures r.Ok? ==>
                r.value == FieldDoc(id, studyId, fieldId, None, r.value.info, Life(now, reader.requester, None))
                && r.value.info.fieldName == info.fieldName && r.value.info.dataType == info.dataType
                && r.value.info.properties
                   == info.properties + if info.dataType == "FILE" then [Property("FileName", true)] else []
      ensures Appends(old(View()), View())
      ensures TombstonesHaveLive(old(fields)) ==> TombstonesHaveLive(fields)
    {
      HasRightIff(reader, fieldId, 2);
      if !MayTouchField(reader, fieldId, 2) { return Err(NoPermission); }
      if !valid { return Err(Malformed); }
      var doc := FieldDoc(id, studyId, fieldId, None, Completed(info), Life(now, reader.requester, None));
      if TombstonesHaveLive(fields) { PushKeepsLive(fields, doc); }
      fields := fields + [doc];
      return Ok(doc);
    }

    /** File fields get the required property FileName. */
    static function Completed(info: FieldInfo): FieldInfo {
      if info.dataType == "FILE" then info.(properties := info.properties + [Property("FileName", true)]) else info
    }

    method EditField(reader: Reader, studyId: string, fieldId: string, edit: FieldEdit, valid: bool,
                     id: string, now: int) returns (r: Result<FieldDoc, Error>)
      modifies this`fields
      ensures r.Ok? <==> && HasRight(reader, fieldId, 2) && valid
                         && exists f :: OldestAlive(old(fields), studyId, fieldId, f)
      ensures r == Err(NoPermission) <==> !HasRight(reader, fieldId, 2)
      ensures r == Err(NonExistent) <==>
        HasRight(reader, fieldId, 2) && forall f :: !OldestAlive(old(fields), studyId, fieldId, f)
      ensures r.Ok? || r.error in {NoPermission, NonExistent, Malformed}
      ensures fields == if r.Ok? then old(fields) + [r.value] else old(fields)
      ensures r.Ok? ==> exists f | f in old(fields) ::
        && OldestAlive(old(fields), studyId, fieldId, f)
        && r.value == FieldDoc(id, studyId, fieldId, None, r.value.info, Life(now, reader.requester, None))
        && IsMerged(edit, f.info, r.value.info)
      ensures Appends(old(View()), View())
      ensures TombstonesHaveLive(old(fields)) ==> TombstonesHaveLive(fields)
    {
      HasRightIff(reader, fieldId, 2);
      hide MayTouchField, HasRight, TombstonesHaveLive, Merged, IsMerged;
      if !MayTouchField(reader, fieldId, 2) { return Err(NoPermission); }
      var found := Filter(fields, IsAlive(studyId, fieldId));
      FirstOfFound(fields, studyId, fieldId);
      hide Filter, IsAlive, OldestAlive;
      if found == [] { return Err(NonExistent); }
      var field := found[0];
      if !valid { return Err(Malformed); }
      MergedIs(edit, field.info);
      var doc := FieldDoc(id, studyId, fieldId, None, Merged(edit, field.info), Life(now, reader.requester, None));
      if TombstonesHaveLive(fields) { PushKeepsLive(fields, doc); }
      fields := fields + [doc];
      return Ok(doc);
    }

    method DeleteField(reader: Reader, studyId: string, fieldId: string, id: string, now: int)
      returns (r: Result<FieldDoc, Error>)
      modifies this`fields
      ensures r.Ok? <==> && HasRight(reader, fieldId, 1)
                         && exists f :: FirstNewest(old(fields), studyId, fieldId, f) && f.life.deletedTime == None
      ensures r == Err(NoPermission) <==> !HasRight(reader, fieldId, 1)
      ensures r.Ok? || r.error in {NoPermission, NonExistent}
      ensures fields == if r.Ok? then old(fields) + [r.value] else old(fields)
      ensures r.Ok? ==> exists f ::
        && FirstNewest(old(fields), studyId, fieldId, f) && f.life.deletedTime == None
        && r.value == FieldDoc(id, studyId, fieldId, None, f.info, Life(now, reader.requester, Some(now)))
      ensures Appends(old(View()), View())
      ensures TombstonesHaveLive(old(fields)) ==> TombstonesHaveLive(fields)
    {
      HasRightIff(reader, fieldId, 1);
      if !MayTouchField(reader, fieldId, 1) { return Err(NoPermission); }
      var own := Filter(fields, IsField(studyId, fieldId));
      var found := StableSort(own, NewerFirst(FieldTime()));
      SortIsPermutation(own, NewerFirst(FieldTime()));
      if found == [] {
        NothingNewest(fields, studyId, fieldId);
        return Err(NonExistent);
      }
      var field := found[0];
      HeadIsFirstNewest(fields, studyId, fieldId);
      hide Filter, StableSort, FirstNewest;
      if field.life.deletedTime != None { return Err(NonExistent); }
      var doc := FieldDoc(id, studyId, fieldId, None, field.info, Life(now, reader.requester, Some(now)));
      if TombstonesHaveLive(fields) {
        NewestIsStored(fields, studyId, fieldId, field);
        PushKeepsLive(fields, doc);
      }
      fields := fields + [doc];
      return Ok(doc);
    }

    /** Stores the clips that pass and answers every clip. Where the parser throws on one, what the batches sent off
        before it hold stays stored; full(n): n documents not sent off yet are more than the limit. */
    method UploadData(reader: Reader, studyId: string, clips: seq<DataInput>,
                      allowed: DataInput -> bool, parse: (FieldInfo, DataInput) -> Parse,
                      ids: nat -> string, clock: nat -> int, full: nat -> bool)
      returns (r: Result<seq<Option<Error>>, Error>)
      modifies this`data
      ensures studyId !in studies <==> r == Err(NonExistent)
      ensures studyId in studies && reader.roles == [] <==> r == Err(NoPermission)
      ensures r.Err? && r.error != Thrown ==> data == old(data)
      ensures studyId in studies && reader.roles != [] ==>
        var u := UploadFor(old(View()), reader, studyId, allowed, parse, ids, clock);
        match u.FirstThrown(clips)
        case Some(k) =>
          r == Err(Thrown) && data == old(data) + SentOff(u.Stored(clips, k), full)
        case None =>
          && r.Ok? && data == old(data) + u.Stored(clips, |clips|)
          && |r.value| == |clips| && forall i | 0 <= i < |clips| :: r.value[i] == u.Answer(clips[i])
      ensures Appends(old(View()), View())
    {
      hide Filter, FieldsAt, LatestPer, Map, ById, DataVersions, SentOff, Upload.Verdict, Upload.FirstThrown;
      if studyId !in studies { return Err(NonExistent); }
      if reader.roles == [] { return Err(NoPermission); }
      var found := FieldsAt(Db(studies, fields, data), reader, studyId, DataVersions(studies[studyId], Default), None);
      r := UploadClips(Upload(studyId, reader.requester, ById(found), allowed, parse, ids, clock), clips, full);
    }

    /** The loop over the clips. */
    method UploadClips(u: Upload, clips: seq<DataInput>, full: nat -> bool)
      returns (r: Result<seq<Option<Error>>, Error>)
      modifies this`data
      ensures match u.FirstThrown(clips)
        case Some(k) => r == Err(Thrown) && data == old(data) + SentOff(u.Stored(clips, k), full)
        case None =>
          && r.Ok? && data == old(data) + u.Stored(clips, |clips|)
          && |r.value| == |clips| && forall i | 0 <= i < |clips| :: r.value[i] == u.Answer(clips[i])
    {
      hide SentOff, Upload.Verdict, Upload.FirstThrown, Upload.Stored;
      var response: seq<Option<Error>> := [];
      var bulk: seq<DataDoc> := [];
      ghost var sent: seq<DataDoc> := [];
      NothingStored(u, clips);
      for counter := 0 to |clips|
        invariant |response| == counter && data == old(data) + sent
        invariant sent + bulk == u.Stored(clips, counter) && |bulk| == Waiting(full, |sent + bulk|)
        invariant forall i | 0 <= i < counter :: response[i] == u.Answer(clips[i]) && u.Verdict(clips[i]) != Err(Thrown)
      {
        var clip := clips[counter];
        StoredNext(u, clips, counter);
        match u.Verdict(clip)
        case Err(e) =>
          if e == Thrown {
            u.FirstThrownAt(clips, counter);
            SentOffIs(sent, bulk, full);
            return Err(Thrown);
          }
          response := response + [Some(e)];
        case Ok(v) =>
          response := response + [None];
          var doc := DataDoc(u.ids(counter), u.studyId, clip.fieldId, None, v, clip.properties,
                             Life(u.clock(counter), u.requester, None));
          assert sent + (bulk + [doc]) == (sent + bulk) + [doc];
          bulk := bulk + [doc];
          if full(|bulk|) {
            data := data + bulk;
            sent, bulk := sent + bulk, [];
          }
      }
      u.NothingThrown(clips);
      if bulk != [] { data := data + bulk; }
      return Ok(response);
    }

    /** Deleting data stores a tombstone for the given tuple. */
    method DeleteData(reader: Reader, studyId: string, fieldId: string, properties: map<string, Value>,
                      id: string, now: int) returns (r: Result<(), Error>)
      modifies this`data
      ensures r.Ok? <==> (exists role | role in reader.roles :: role.isManager) && studyId in studies
      ensures r == Err(NoPermission) <==> forall role | role in reader.roles :: !role.isManager
      ensures r.Ok? || r.error in {NoPermission, NonExistent}
      ensures data == old(data) + if r.Ok? then [DataDoc(id, studyId, fieldId, None, Null, properties,
                                                         Life(now, reader.requester, Some(now)))] else []
      ensures Appends(old(View()), View())
    {
      if forall role | role in reader.roles :: !role.isManager { return Err(NoPermission); }
      if studyId !in studies { return Err(NonExistent); }
      data := data + [DataDoc(id, studyId, fieldId, None, Null, properties, Life(now, reader.requester, Some(now)))];
      return Ok(());
    }

    /** The version is stored even when the call then fails with NothingToUpdate. */
    method CreateDataVersion(authorised: bool, studyId: string, tag: string, dataVersion: string, newId: string)
      returns (r: Result<Version, Error>)
      requires FreshVersion(View(), newId)
      modifies this
      ensures r.Ok? || r.error == NothingToUpdate
         <==> authorised && studyId in old(studies) && IsDecimal(dataVersion)
              && forall v | v in old(studies)[studyId].dataVersions :: v.version != dataVersion
      ensures r.Err? && r.error != NothingToUpdate ==> View() == old(View())
      ensures r.Ok? || r.error == NothingToUpdate ==>
        && studyId in old(studies)
        && Published(old(View()), View(), studyId, Version(newId, dataVersion, tag))
        && Step(old(View()), View())
      ensures r == Err(NoPermission) <==> !authorised
      ensures r == Err(NonExistent) <==> authorised && studyId !in old(studies)
      ensures r.Ok? || r.error in {NoPermission, NonExistent, Malformed, NothingToUpdate}
      ensures r.Ok? ==> r.value == Version(newId, dataVersion, tag)
      ensures r == Err(NothingToUpdate) ==> fields == old(fields) && data == old(data)
      ensures r.Ok? || r.error == NothingToUpdate ==> (r.Err? <==> NothingUnpublished(old(View()), studyId))
      ensures r.Err? ==> (View() == old(View()) <==> r.error != NothingToUpdate)
      ensures TombstonesHaveLive(old(fields)) ==> TombstonesHaveLive(fields)
    {
      hide IsDecimal, Filter, FieldsAt, NothingUnpublished, TombstonesHaveLive;
      if !authorised { return Err(NoPermission); }
      if studyId !in studies { return Err(NonExistent); }
      var study := studies[studyId];
      if !IsDecimal(dataVersion) { return Err(Malformed); }
      if exists v | v in study.dataVersions :: v.version == dataVersion { return Err(Malformed); }
      var changed := StampUnpublished(studyId, newId);
      var v := Version(newId, dataVersion, tag);
      studies := studies[studyId := Study(study.dataVersions + [v], study.currentDataVersion + 1)];
      assert Publishes(old(View()), View(), studyId, v);
      PublishIs(old(View()), studyId, v);
      hide FreshVersion, Published;
      assert |studies[studyId].dataVersions| == |old(studies)[studyId].dataVersions| + 1;
      if !changed { return Err(NothingToUpdate); }
      return Ok(v);
    }

    /** The two updates of all unpublished documents; tells whether one of them changed anything. */
    method StampUnpublished(studyId: string, newId: string) returns (changed: bool)
      modifies this`data, this`fields
      ensures data == Map(old(data), StampData(studyId, newId))
      ensures fields == Map(old(fields), StampField(studyId, newId))
      ensures changed <==> !NothingUnpublished(old(View()), studyId)
      ensures !changed ==> data == old(data) && fields == old(fields)
      ensures TombstonesHaveLive(old(fields)) ==> TombstonesHaveLive(fields)
    {
      changed := || (exists d | d in data :: d.studyId == studyId && d.dataVersion == None)
                 || (exists f | f in fields :: f.studyId == studyId && f.dataVersion == None);
      assert changed <==> !NothingUnpublished(View(), studyId);
      if TombstonesHaveLive(fields) { StampKeepsLive(fields, studyId, newId); }
      StampNothing(View(), studyId, newId);
      hide NothingUnpublished, TombstonesHaveLive;
      data := Map(data, StampData(studyId, newId));
      fields := Map(fields, StampField(studyId, newId));
    }

    method SetDataversionAsCurrent(authorised: bool, studyId: string, versionId: string) returns (r: Result<int, Error>)
      modifies this`studies
      ensures r.Ok? <==> && authorised && studyId in old(studies)
                         && exists i :: IsOnlyVersion(old(studies)[studyId], i, versionId)
      ensures r.Err? ==> studies == old(studies)
      ensures r == Err(NoPermission) <==> !authorised
      ensures r == Err(NonExistent) <==> authorised && studyId !in old(studies)
      ensures r.Ok? || r.error in {NoPermission, NonExistent, Malformed}
      ensures r.Ok? ==>
        && studyId in old(studies)
        && var study := old(studies)[studyId];
        && IsOnlyVersion(study, r.value, versionId)
        && studies == old(studies)[studyId := study.(currentDataVersion := r.value)]
        && Step(old(View()), View())
    {
      if !authorised { return Err(NoPermission); }
      if studyId !in studies { return Err(NonExistent); }
      var study := studies[studyId];
      var same := WithId(versionId);
      OneVersionIff(study, versionId);
      if |Filter(study.dataVersions, same)| != 1 { return Err(Malformed); }
      var index := OnlyIndex(study.dataVersions, same);
      studies := studies[studyId := study.(currentDataVersion := index)];
      assert SelectsVersion(old(View()), View(), studyId, index);
      return Ok(index);
    }
  }

  /** The index of the only element that satisfies p. */
  function OnlyIndex<T>(s: seq<T>, p: T -> bool): (i: nat)
    requires |Filter(s, p)| == 1
    ensures i < |s| && p(s[i])
    ensures forall j | 0 <= j < |s| && j != i :: !p(s[j])
  {
    if p(s[0]) then
      (forall j | 0 <= j < |s[1..]| ensures !p(s[1..][j]) { FilterMember(s[1..], p, s[1..][j]); }
       assert forall j | 1 <= j < |s| :: s[j] == s[1..][j - 1];
       0)
    else
      (assert forall j | 1 <= j < |s| :: s[j] == s[1..][j - 1];
       1 + OnlyIndex(s[1..], p))
  }
}
