/** What publishing does to the default view, whichever version is current. */
module Publication {
  import opened Sequences
  import opened Documents
  import opened StudyData
  import opened StudyHistory

  // ----- scope --------------------------------------------------------------

  /** Some data or field document of the study carries the version. */
  ghost predicate InUse(db: Db, studyId: string, version: Option<string>) {
    || (exists d :: d in db.data && d.studyId == studyId && d.dataVersion == version)
    || (exists f :: f in db.fields && f.studyId == studyId && f.dataVersion == version)
  }

  /** Publishing leaves the documents of the version in or out of the default scope as they were. */
  ghost predicate KeepsScope(db: Db, studyId: string, v: Version, version: Option<string>)
    requires studyId in db.studies
  {
    InDefaultScope(Publish(db, studyId, v), studyId, if version == None then Some(v.id) else version)
    <==> InDefaultScope(db, studyId, version)
  }

  /** A published version other than the one after the current one. */
  ghost predicate IsUnaffected(study: Study, version: Option<string>)
    requires -1 <= study.currentDataVersion < |study.dataVersions| - 1
  {
    version != None && version != Some(study.dataVersions[study.currentDataVersion + 1].id)
  }

  lemma ScopeOfVersion(db: Db, studyId: string, v: Version, version: Option<string>)
    requires WellFormed(db) && studyId in db.studies && version != Some(v.id) && FreshVersion(db, v.id)
    ensures KeepsScope(db, studyId, v, version)
       <==> CurrentIsLast(db.studies[studyId]) || IsUnaffected(db.studies[studyId], version)
  {
    var study, now := db.studies[studyId], Publish(db, studyId, v).studies[studyId];
    if CurrentIsLast(study) {
      PublishKeepsScope(db, studyId, v, version);
    } else {
      var c := study.currentDataVersion;
      DefaultScope(study, version);
      DefaultScope(now, if version == None then Some(v.id) else version);
      assert forall i | 0 <= i < |study.dataVersions| :: now.dataVersions[i] == study.dataVersions[i];
      if version == Some(study.dataVersions[c + 1].id) {
        assert forall i | 0 <= i <= c :: study.dataVersions[i].id != study.dataVersions[c + 1].id;
      }
    }
  }

  /** Publishing leaves every data and field document of the study in or out of scope exactly when the current
      version was the last one, or nothing was unpublished and nothing carries the version after the current one. */
  lemma PublishKeepsScopeIff(db: Db, studyId: string, v: Version)
    requires WellFormed(db) && studyId in db.studies && FreshVersion(db, v.id)
    ensures (forall version | InUse(db, studyId, version) :: KeepsScope(db, studyId, v, version))
       <==> CurrentIsLast(db.studies[studyId])
            || forall version | InUse(db, studyId, version) :: IsUnaffected(db.studies[studyId], version)
  {
    forall version | InUse(db, studyId, version)
      ensures KeepsScope(db, studyId, v, version)
         <==> CurrentIsLast(db.studies[studyId]) || IsUnaffected(db.studies[studyId], version)
    {
      ScopeOfVersion(db, studyId, v, version);
    }
  }

  // ----- the view while an older version is current -------------------------

  /** The versions up to the one after the current one. */
  function UpToNext(study: Study): seq<Option<string>>
    requires -1 <= study.currentDataVersion < |study.dataVersions| - 1
  {
    Map(study.dataVersions[..study.currentDataVersion + 2], VersionId())
  }

  /** A document matches the default read after publishing exactly when it matches a read of these versions before. */
  lemma ScopeAfter(db: Db, studyId: string, v: Version, version: Option<string>)
    requires WellFormed(db) && studyId in db.studies && !CurrentIsLast(db.studies[studyId])
    requires version != Some(v.id) && FreshVersion(db, v.id)
    ensures var after := DataVersions(Publish(db, studyId, v).studies[studyId], Default);
      Some(v.id) !in after && (version != None ==> (version in after <==> version in UpToNext(db.studies[studyId])))
    ensures None !in UpToNext(db.studies[studyId])
  {
    var study, now := db.studies[studyId], Publish(db, studyId, v).studies[studyId];
    var next := UpToNext(study);
    assert now.dataVersions[..study.currentDataVersion + 2] == study.dataVersions[..study.currentDataVersion + 2];
    assert DataVersions(now, Default) == next + [None];
    forall i | 0 <= i < |next| ensures next[i] != Some(v.id) {
      assert next[i] == Some(study.dataVersions[i].id) && study.dataVersions[i] in study.dataVersions;
    }
  }

  lemma {:induction false} MapUnchanged<T>(s: seq<T>, f: T -> T)
    requires forall i | 0 <= i < |s| :: f(s[i]) == s[i]
    ensures Map(s, f) == s
  {
  }

  lemma FieldsBehind(db: Db, studyId: string, v: Version, reader: Reader)
    requires WellFormed(db) && studyId in db.studies && !CurrentIsLast(db.studies[studyId]) && FreshVersion(db, v.id)
    ensures DefaultFields(Publish(db, studyId, v), reader, studyId)
         == FieldsAt(db, reader, studyId, UpToNext(db.studies[studyId]), None)
  {
    var after, f := Publish(db, studyId, v), StampField(studyId, v.id);
    var p := FieldMatch(reader, studyId, UpToNext(db.studies[studyId]), None);
    var q := FieldMatch(reader, studyId, DataVersions(after.studies[studyId], Default), None);
    hide WellFormed, DataVersions, UpToNext, MayReadField;
    forall i | 0 <= i < |db.fields|
      ensures q(f(db.fields[i])) == p(db.fields[i]) && (p(db.fields[i]) ==> f(db.fields[i]) == db.fields[i])
    {
      assert db.fields[i] in db.fields;
      ScopeAfter(db, studyId, v, db.fields[i].dataVersion);
    }
    FilterMap(db.fields, f, q, p);
    var matched := Filter(db.fields, p);
    forall i | 0 <= i < |matched| ensures f(matched[i]) == matched[i] {
      FilterMember(db.fields, p, matched[i]);
      var k :| 0 <= k < |db.fields| && db.fields[k] == matched[i];
    }
    MapUnchanged(matched, f);
  }

  lemma DataBehind(db: Db, studyId: string, v: Version, reader: Reader, fieldId: string)
    requires WellFormed(db) && studyId in db.studies && !CurrentIsLast(db.studies[studyId]) && FreshVersion(db, v.id)
    ensures Filter(Publish(db, studyId, v).data, DefaultMatch(Publish(db, studyId, v), reader, studyId, fieldId))
         == Filter(db.data, DataMatch(reader, studyId, UpToNext(db.studies[studyId]), fieldId))
  {
    var after, f := Publish(db, studyId, v), StampData(studyId, v.id);
    var p := DataMatch(reader, studyId, UpToNext(db.studies[studyId]), fieldId);
    var q := DefaultMatch(after, reader, studyId, fieldId);
    hide WellFormed, DataVersions, UpToNext, Admits;
    forall i | 0 <= i < |db.data|
      ensures q(f(db.data[i])) == p(db.data[i]) && (p(db.data[i]) ==> f(db.data[i]) == db.data[i])
    {
      assert db.data[i] in db.data;
      ScopeAfter(db, studyId, v, db.data[i].dataVersion);
    }
    FilterMap(db.data, f, q, p);
    var matched := Filter(db.data, p);
    forall i | 0 <= i < |matched| ensures f(matched[i]) == matched[i] {
      FilterMember(db.data, p, matched[i]);
      var k :| 0 <= k < |db.data| && db.data[k] == matched[i];
    }
    MapUnchanged(matched, f);
  }

  lemma {:induction false} QueriesBehind(db: Db, studyId: string, v: Version, reader: Reader,
                                         available: map<string, FieldDoc>, ids: seq<string>)
    requires WellFormed(db) && studyId in db.studies && !CurrentIsLast(db.studies[studyId]) && FreshVersion(db, v.id)
    ensures DefaultQuery(Publish(db, studyId, v), reader, studyId, available, ids)
         == QueryFields(db, reader, studyId, UpToNext(db.studies[studyId]), available, ids)
  {
    hide WellFormed, FreshVersion, Filter, LatestAlive, DataVersions, UpToNext, Publish;
    if ids != [] {
      QueriesBehind(db, studyId, v, reader, available, ids[1..]);
      DataBehind(db, studyId, v, reader, ids[0]);
    }
  }

  /** Published behind the last version, the default view becomes what a read at the versions up to the next one
      gave before, stamps included: unpublished documents are hidden and the next version comes in. */
  lemma ViewBehind(db: Db, studyId: string, v: Version, reader: Reader, selected: Option<seq<string>>)
    requires WellFormed(db) && studyId in db.studies && !CurrentIsLast(db.studies[studyId]) && FreshVersion(db, v.id)
    ensures GetStudyData(Publish(db, studyId, v), reader, studyId, Default, selected)
         == GetStudyData(db, reader, studyId, Many(UpToNext(db.studies[studyId])), selected)
  {
    var next := UpToNext(db.studies[studyId]);
    hide WellFormed, FreshVersion, Filter, FieldsAt, ById, UpToNext, QueryFields, HasEmptyRole;
    FieldsBehind(db, studyId, v, reader);
    var fields := FieldsAt(db, reader, studyId, next, None);
    var ids := match selected case Some(ids) => ids case None => Map(fields, FieldKey());
    QueriesBehind(db, studyId, v, reader, ById(fields), ids);
  }

  /** The rows without their stamps. */
  function Unstamped(r: Result<seq<Row>, Error>): Result<seq<Row>, Error> {
    match r case Ok(rows) => Ok(Map(rows, Unstamp())) case Err(e) => Err(e)
  }

  /** For a reader admitted to unpublished data, publishing keeps the default view up to the stamps exactly when
      the current version was the last one, or a read at the versions up to the next one already gave that view. */
  lemma PublishKeepsViewIff(db: Db, studyId: string, v: Version, reader: Reader, selected: Option<seq<string>>)
    requires WellFormed(db) && studyId in db.studies && FreshVersion(db, v.id)
    requires SeesUnpublished(reader) && reader.roles != []
    ensures Unstamped(GetStudyData(Publish(db, studyId, v), reader, studyId, Default, selected))
         == Unstamped(GetStudyData(db, reader, studyId, Default, selected))
       <==> CurrentIsLast(db.studies[studyId])
            || Unstamped(GetStudyData(db, reader, studyId, Many(UpToNext(db.studies[studyId])), selected))
               == Unstamped(GetStudyData(db, reader, studyId, Default, selected))
  {
    hide WellFormed, FreshVersion, GetStudyData, SeesUnpublished, Publish;
    if CurrentIsLast(db.studies[studyId]) {
      PublishKeepsView(db, studyId, v, reader, selected);
    } else {
      ViewBehind(db, studyId, v, reader, selected);
    }
  }

  // ----- documents out of the way -------------------------------------------

  /** The two lists of versions select the same documents of the study. */
  ghost predicate SameScope(db: Db, studyId: string, a: seq<Option<string>>, b: seq<Option<string>>) {
    forall version | InUse(db, studyId, version) :: version in a <==> version in b
  }

  lemma SameScopeSameFields(db: Db, reader: Reader, studyId: string, a: seq<Option<string>>, b: seq<Option<string>>)
    requires SameScope(db, studyId, a, b)
    ensures FieldsAt(db, reader, studyId, a, None) == FieldsAt(db, reader, studyId, b, None)
  {
    var p, q := FieldMatch(reader, studyId, a, None), FieldMatch(reader, studyId, b, None);
    forall i | 0 <= i < |db.fields| ensures p(db.fields[i]) == q(db.fields[i]) {
      assert db.fields[i] in db.fields;
      assert db.fields[i].studyId == studyId ==> InUse(db, studyId, db.fields[i].dataVersion);
    }
    FilterAgrees(db.fields, p, q);
  }

  lemma {:induction false} SameScopeSameQueries(db: Db, reader: Reader, studyId: string, a: seq<Option<string>>,
                                                b: seq<Option<string>>,
                                                available: map<string, FieldDoc>, ids: seq<string>)
    requires SameScope(db, studyId, a, b)
    ensures QueryFields(db, reader, studyId, a, available, ids) == QueryFields(db, reader, studyId, b, available, ids)
  {
    if ids != [] {
      SameScopeSameQueries(db, reader, studyId, a, b, available, ids[1..]);
      var p, q := DataMatch(reader, studyId, a, ids[0]), DataMatch(reader, studyId, b, ids[0]);
      hide SameScope, Admits;
      forall i | 0 <= i < |db.data| ensures p(db.data[i]) == q(db.data[i]) {
        DataInUse(db, studyId, i, a, b);
      }
      FilterAgrees(db.data, p, q);
    }
  }

  lemma DataInUse(db: Db, studyId: string, i: nat, a: seq<Option<string>>, b: seq<Option<string>>)
    requires SameScope(db, studyId, a, b) && i < |db.data|
    ensures db.data[i].studyId == studyId ==> (db.data[i].dataVersion in a <==> db.data[i].dataVersion in b)
  {
    assert db.data[i] in db.data;
    assert db.data[i].studyId == studyId ==> InUse(db, studyId, db.data[i].dataVersion);
  }

  lemma SameScopeSameView(db: Db, reader: Reader, studyId: string, q: VersionQuery, r: VersionQuery,
                          selected: Option<seq<string>>)
    requires studyId in db.studies
    requires SameScope(db, studyId, DataVersions(db.studies[studyId], q), DataVersions(db.studies[studyId], r))
    ensures GetStudyData(db, reader, studyId, q, selected) == GetStudyData(db, reader, studyId, r, selected)
  {
    var a, b := DataVersions(db.studies[studyId], q), DataVersions(db.studies[studyId], r);
    hide DataVersions, FieldsAt, QueryFields, ById, SameScope;
    SameScopeSameFields(db, reader, studyId, a, b);
    var fields := FieldsAt(db, reader, studyId, a, None);
    var ids := match selected case Some(ids) => ids case None => Map(fields, FieldKey());
    SameScopeSameQueries(db, reader, studyId, a, b, ById(fields), ids);
  }

  lemma UnaffectedScope(db: Db, studyId: string)
    requires WellFormed(db) && studyId in db.studies && !CurrentIsLast(db.studies[studyId])
    requires forall version | InUse(db, studyId, version) :: IsUnaffected(db.studies[studyId], version)
    ensures SameScope(db, studyId, UpToNext(db.studies[studyId]), DataVersions(db.studies[studyId], Default))
  {
    var study := db.studies[studyId];
    hide InUse, UpToNext, DataVersions;
    forall version | InUse(db, studyId, version)
      ensures version in UpToNext(study) <==> version in DataVersions(study, Default)
    {
      DefaultScope(study, version);
      NextScope(study, version);
    }
  }

  /** Where no document of the study is affected, every reader's view stays as it is, stamps included. */
  lemma UnaffectedKeepsView(db: Db, studyId: string, v: Version, reader: Reader, selected: Option<seq<string>>)
    requires WellFormed(db) && studyId in db.studies && FreshVersion(db, v.id) && !CurrentIsLast(db.studies[studyId])
    requires forall version | InUse(db, studyId, version) :: IsUnaffected(db.studies[studyId], version)
    ensures GetStudyData(Publish(db, studyId, v), reader, studyId, Default, selected)
         == GetStudyData(db, reader, studyId, Default, selected)
  {
    var next := UpToNext(db.studies[studyId]);
    ViewBehind(db, studyId, v, reader, selected);
    UnaffectedScope(db, studyId);
    assert DataVersions(db.studies[studyId], Many(next)) == next;
    hide WellFormed, FreshVersion, Publish, UpToNext, SameScope, GetStudyData;
    SameScopeSameView(db, reader, studyId, Many(next), Default, selected);
  }

  lemma NextScope(study: Study, version: Option<string>)
    requires -1 <= study.currentDataVersion < |study.dataVersions| - 1
    ensures version in UpToNext(study)
       <==> exists i | 0 <= i <= study.currentDataVersion + 1 :: version == Some(study.dataVersions[i].id)
  {
    var next := UpToNext(study);
    assert forall i | 0 <= i < |next| :: next[i] == Some(study.dataVersions[i].id);
  }

  // ----- a tombstone that comes into scope ----------------------------------

  /** A field, its tombstone and one document of data, with the versions published around them. */
  datatype Story = Story(reader: Reader, studyId: string, field: FieldDoc, tombstone: FieldDoc, doc: DataDoc,
                         v0: Version, v1: Version, v2: Version)
  {
    ghost predicate Valid() {
      && field.studyId == tombstone.studyId == doc.studyId == studyId
      && field.fieldId == tombstone.fieldId == doc.fieldId
      && field.dataVersion == None && tombstone.dataVersion == None && doc.dataVersion == None
      && field.life.deletedTime == None && tombstone.life.deletedTime != None && doc.life.deletedTime == None
      && field.life.createdTime < tombstone.life.createdTime
      && v0.id != v1.id && v1.id != v2.id && v0.id != v2.id
      && reader.roles != [] && !HasEmptyRole(reader) && MayReadField(reader, field.fieldId)
      && doc.life.createdUser == reader.requester
    }

    function Field0(): FieldDoc { field.(dataVersion := Some(v0.id)) }
    function Tombstone1(): FieldDoc { tombstone.(dataVersion := Some(v1.id)) }
    function Doc0(): DataDoc { doc.(dataVersion := Some(v0.id)) }

    /** Create the field, upload, publish v0, delete the field, publish v1, select v0, publish v2. */
    function States(): seq<Db> {
      [Db(map[], [], []),
       Db(map[studyId := Study([], -1)], [], []),
       Db(map[studyId := Study([], -1)], [field], []),
       Db(map[studyId := Study([], -1)], [field], [doc]),
       Db(map[studyId := Study([v0], 0)], [Field0()], [Doc0()]),
       Db(map[studyId := Study([v0], 0)], [Field0(), tombstone], [Doc0()]),
       Db(map[studyId := Study([v0, v1], 1)], [Field0(), Tombstone1()], [Doc0()]),
       Before(),
       After()]
    }

    function Before(): Db { Db(map[studyId := Study([v0, v1], 0)], [Field0(), Tombstone1()], [Doc0()]) }
    function After(): Db { Db(map[studyId := Study([v0, v1, v2], 1)], [Field0(), Tombstone1()], [Doc0()]) }
  }

  lemma StoryPublishesV0(s: Story)
    requires s.Valid()
    ensures Publishes(s.States()[3], s.States()[4], s.studyId, s.v0)
  {
    assert [] + [s.v0] == [s.v0];
    hide HasEmptyRole, MayReadField;
    PublishOf(s.States()[3], s.States()[4], s.studyId, s.v0);
  }

  lemma StoryPublishesV1(s: Story)
    requires s.Valid()
    ensures Publishes(s.States()[5], s.States()[6], s.studyId, s.v1)
  {
    assert [s.v0] + [s.v1] == [s.v0, s.v1];
    hide HasEmptyRole, MayReadField;
    PublishOf(s.States()[5], s.States()[6], s.studyId, s.v1);
  }

  lemma StoryPublishesV2(s: Story)
    requires s.Valid()
    ensures Publishes(s.Before(), s.After(), s.studyId, s.v2)
  {
    assert [s.v0, s.v1] + [s.v2] == [s.v0, s.v1, s.v2];
    hide HasEmptyRole, MayReadField;
    PublishOf(s.Before(), s.After(), s.studyId, s.v2);
  }

  lemma PublishOf(db: Db, db': Db, studyId: string, v: Version)
    requires studyId in db.studies && FreshVersion(db, v.id)
    requires db'.studies == db.studies[studyId :=
      Study(db.studies[studyId].dataVersions + [v], db.studies[studyId].currentDataVersion + 1)]
    requires |db'.fields| == |db.fields| && forall i | 0 <= i < |db.fields| ::
      db'.fields[i] == StampField(studyId, v.id)(db.fields[i])
    requires |db'.data| == |db.data| && forall i | 0 <= i < |db.data| ::
      db'.data[i] == StampData(studyId, v.id)(db.data[i])
    ensures Publishes(db, db', studyId, v)
  {
    assert db'.fields == Map(db.fields, StampField(studyId, v.id));
    assert db'.data == Map(db.data, StampData(studyId, v.id));
  }

  lemma StoryIsRun(s: Story)
    requires s.Valid()
    ensures Run(s.States())
  {
    StoryPublishesV0(s);
    StoryPublishesV1(s);
    StoryPublishesV2(s);
    hide HasEmptyRole, MayReadField;
    var dbs, id := s.States(), s.studyId;
    hide Publishes;
    assert OpensStudy(dbs[0], dbs[1], id);
    assert Appends(dbs[1], dbs[2]) && Appends(dbs[2], dbs[3]) && Appends(dbs[4], dbs[5]);
    assert SelectsVersion(dbs[6], dbs[7], id, 0);
    hide OpensStudy, Appends, SelectsVersion;
    forall i | 0 <= i < 8 ensures Step(dbs[i], dbs[i + 1]) {
      assert i in {0, 1, 2, 3, 4, 5, 6, 7};
    }
  }

  lemma FilterOne<T>(x: T, p: T -> bool)
    ensures Filter([x], p) == if p(x) then [x] else []
  {
    assert [x][1..] == [];
    assert Filter<T>([], p) == [] && [x] + [] == [x];
  }

  lemma FilterTwo<T>(x: T, y: T, p: T -> bool)
    ensures Filter([x, y], p) == (if p(x) then [x] else []) + (if p(y) then [y] else [])
  {
    assert [x, y] == [x] + [y];
    FilterConcat([x], [y], p);
    FilterOne(x, p);
    FilterOne(y, p);
  }

  lemma FirstOfOne<T, K>(d: T, key: T -> K)
    ensures FirstPer([d], key) == [d]
  {
    assert [d][..0] == [];
    assert !HasKey<T, K>([], key, key(d));
    assert FirstPer<T, K>([], key) == [] && [] + [d] == [d];
  }

  lemma SortOfOne<T>(d: T, le: (T, T) -> bool)
    ensures StableSort([d], le) == [d]
  {
    assert [d][1..] == [];
    assert StableSort<T>([], le) == [] && Insert(d, [], le) == [d];
  }

  lemma LatestOfOne<T, K>(d: T, key: T -> K, time: T -> int)
    ensures LatestPer([d], key, time) == [d]
  {
    SortOfOne(d, NewerFirst(time));
    FirstOfOne(d, key);
  }

  lemma LatestOfTwo<T, K>(older: T, newer: T, key: T -> K, time: T -> int)
    requires key(older) == key(newer) && time(older) < time(newer)
    ensures LatestPer([older, newer], key, time) == [newer]
  {
    var le := NewerFirst(time);
    SortOfOne(newer, le);
    assert [older, newer][1..] == [newer] && [newer][1..] == [];
    assert Insert(older, [], le) == [older];
    assert Insert(older, [newer], le) == [newer] + [older];
    assert StableSort([older, newer], le) == [newer, older];
    FirstOfOne(newer, key);
    assert [newer, older][..1] == [newer] && [newer][0] == newer;
    assert HasKey([newer], key, key(older));
  }

  lemma StoryFieldsBefore(s: Story)
    requires s.Valid()
    ensures DataVersions(s.Before().studies[s.studyId], Default) == [Some(s.v0.id), None]
    ensures FieldsAt(s.Before(), s.reader, s.studyId, [Some(s.v0.id), None], None) == [s.Field0()]
  {
    var f, t := s.Field0(), s.Tombstone1();
    assert [s.v0, s.v1][..1] == [s.v0];
    var p := FieldMatch(s.reader, s.studyId, [Some(s.v0.id), None], None);
    assert p(f) && !p(t);
    hide Filter, LatestPer, MayReadField, HasEmptyRole;
    FilterTwo(f, t, p);
    FilterOne(f, FieldAlive());
    LatestOfOne(f, FieldKey(), FieldTime());
    assert Filter([f, t], p) == [f];
  }

  lemma StoryFieldsAfter(s: Story)
    requires s.Valid()
    ensures DataVersions(s.After().studies[s.studyId], Default) == [Some(s.v0.id), Some(s.v1.id), None]
    ensures FieldsAt(s.After(), s.reader, s.studyId, [Some(s.v0.id), Some(s.v1.id), None], None) == []
  {
    var f, t := s.Field0(), s.Tombstone1();
    assert [s.v0, s.v1, s.v2][..2] == [s.v0, s.v1];
    var q := FieldMatch(s.reader, s.studyId, [Some(s.v0.id), Some(s.v1.id), None], None);
    assert q(f) && q(t);
    hide Filter, LatestPer, MayReadField, HasEmptyRole;
    FilterTwo(f, t, q);
    FilterOne(t, FieldAlive());
    LatestOfTwo(f, t, FieldKey(), FieldTime());
    assert Filter([f, t], q) == [f, t];
  }

  lemma ByIdOfOne(f: FieldDoc)
    ensures ById([f]) == map[f.fieldId := f]
  {
    assert [f][..0] == [] && [f][0] == f;
    assert ById([]) == map[];
  }

  lemma StoryQuery(s: Story)
    requires s.Valid()
    ensures var available := ById([s.Field0()]);
      QueryFields(s.Before(), s.reader, s.studyId, [Some(s.v0.id), None], available, [s.doc.fieldId]) == [s.Doc0()]
  {
    var db, f, d, versions := s.Before(), s.Field0(), s.Doc0(), [Some(s.v0.id), None];
    assert [f][..0] == [] && [d.fieldId][1..] == [] && [d] + [] == [d];
    var available := ById([f]);
    ByIdOfOne(f);
    FilterOne(d, DataMatch(s.reader, s.studyId, versions, d.fieldId));
    FilterOne(d, DataAlive());
    LatestOfOne(d, PropertyTuple(f.info.properties), DataTime());
    hide Filter, LatestPer, PropertyTuple, HasEmptyRole, MayReadField;
    assert QueryField(db, s.reader, s.studyId, versions, available, d.fieldId) == [d];
  }

  lemma StoryBefore(s: Story)
    requires s.Valid()
    ensures GetStudyData(s.Before(), s.reader, s.studyId, Default, Some([s.doc.fieldId])) == Ok([Project()(s.Doc0())])
  {
    StoryFieldsBefore(s);
    StoryQuery(s);
    hide FieldsAt, DataVersions, QueryFields, ById, HasEmptyRole, MayReadField;
    assert Map([s.Doc0()], Project()) == [Project()(s.Doc0())];
  }

  lemma StoryAfter(s: Story)
    requires s.Valid()
    ensures GetStudyData(s.After(), s.reader, s.studyId, Default, Some([s.doc.fieldId])) == Ok([])
  {
    StoryFieldsAfter(s);
    var versions, id := [Some(s.v0.id), Some(s.v1.id), None], s.doc.fieldId;
    assert [id][1..] == [];
    assert QueryFields(s.After(), s.reader, s.studyId, versions, ById([]), [id]) == [];
    hide FieldsAt, DataVersions, QueryFields, HasEmptyRole, MayReadField;
  }

  /** Data documents are not the whole condition: in this run every data document keeps its scope when v2 is
      published, yet the field's tombstone comes into scope and the field's data disappears from the view. */
  lemma TombstoneHidesData(s: Story)
    requires s.Valid()
    ensures Run(s.States()) && Publishes(s.Before(), s.After(), s.studyId, s.v2)
    ensures forall d | d in s.Before().data :: KeepsScope(s.Before(), s.studyId, s.v2, d.dataVersion)
    ensures !KeepsScope(s.Before(), s.studyId, s.v2, s.Tombstone1().dataVersion)
    ensures GetStudyData(s.Before(), s.reader, s.studyId, Default, Some([s.doc.fieldId])) == Ok([Project()(s.Doc0())])
    ensures GetStudyData(s.After(), s.reader, s.studyId, Default, Some([s.doc.fieldId])) == Ok([])
  {
    StoryIsRun(s);
    StoryPublishesV2(s);
    StoryBefore(s);
    StoryAfter(s);
    StoryScopes(s);
    hide GetStudyData, Run, KeepsScope, HasEmptyRole, MayReadField;
  }

  lemma StoryScopes(s: Story)
    requires s.Valid()
    ensures KeepsScope(s.Before(), s.studyId, s.v2, Some(s.v0.id))
    ensures !KeepsScope(s.Before(), s.studyId, s.v2, Some(s.v1.id))
  {
    var db := s.Before();
    assert FreshVersion(db, s.v2.id) && WellFormed(db);
    hide FreshVersion, WellFormed, KeepsScope, HasEmptyRole, MayReadField;
    ScopeOfVersion(db, s.studyId, s.v2, Some(s.v0.id));
    ScopeOfVersion(db, s.studyId, s.v2, Some(s.v1.id));
  }
}
