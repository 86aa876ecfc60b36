/** Properties of whole runs over the study collections. */
module StudyHistory {
  import opened Sequences
  import opened Documents
  import opened Json
  import opened StudyData

  // ----- versions stay well formed ------------------------------------------

  ghost predicate VersionsDistinct(study: Study) {
    forall i, j | 0 <= i < j < |study.dataVersions| :: study.dataVersions[i].id != study.dataVersions[j].id
  }

  /** The current version is an index of the list, or -1, and version ids are not repeated. */
  ghost predicate WellFormed(db: Db) {
    forall id | id in db.studies ::
      && -1 <= db.studies[id].currentDataVersion < |db.studies[id].dataVersions|
      && VersionsDistinct(db.studies[id])
  }

  lemma StepKeepsWellFormed(db: Db, db': Db)
    requires WellFormed(db) && Step(db, db')
    ensures WellFormed(db')
  {
    if studyId, v :| Publishes(db, db', studyId, v) {
      var was, now := db.studies[studyId], db'.studies[studyId];
      forall i, j | 0 <= i < j < |now.dataVersions| ensures now.dataVersions[i].id != now.dataVersions[j].id {
        assert was.dataVersions[i] in was.dataVersions;
      }
    }
  }

  /** -1 <= currentDataVersion < number of versions in every state of every run. */
  lemma {:induction false} RunKeepsWellFormed(dbs: seq<Db>, n: nat)
    requires Run(dbs) && n < |dbs| && WellFormed(dbs[0])
    ensures WellFormed(dbs[n])
  {
    if n > 0 {
      RunKeepsWellFormed(dbs, n - 1);
      StepKeepsWellFormed(dbs[n - 1], dbs[n]);
    }
  }

  // ----- snapshots ----------------------------------------------------------

  /** Every version of the list is a published one. */
  ghost predicate Published(db: Db, versions: seq<Option<string>>) {
    forall v | v in versions :: v.Some? && Exists(db, v.value)
  }

  ghost predicate Exists(db: Db, v: string) {
    exists id | id in db.studies ::
      exists i | 0 <= i < |db.studies[id].dataVersions| :: db.studies[id].dataVersions[i].id == v
  }

  function FieldIn(versions: seq<Option<string>>): FieldDoc -> bool { (f: FieldDoc) => f.dataVersion in versions }

  function DataIn(versions: seq<Option<string>>): DataDoc -> bool { (d: DataDoc) => d.dataVersion in versions }

  /** The two states hold the same documents, in the same order, at these versions. */
  ghost predicate SameAt(db: Db, db': Db, versions: seq<Option<string>>) {
    && Filter(db.fields, FieldIn(versions)) == Filter(db'.fields, FieldIn(versions))
    && Filter(db.data, DataIn(versions)) == Filter(db'.data, DataIn(versions))
  }

  lemma AppendKeepsFilter<T>(s: seq<T>, s': seq<T>, p: T -> bool)
    requires s <= s' && forall i | |s| <= i < |s'| :: !p(s'[i])
    ensures Filter(s', p) == Filter(s, p)
  {
    assert s' == s + s'[|s|..];
    FilterConcat(s, s'[|s|..], p);
    FilterNone(s'[|s|..], p);
  }

  lemma {:induction false} RewriteKeepsFilter<T>(s: seq<T>, f: T -> T, p: T -> bool)
    requires forall i | 0 <= i < |s| :: p(f(s[i])) == p(s[i])
    requires forall i | 0 <= i < |s| && p(s[i]) :: f(s[i]) == s[i]
    ensures Filter(Map(s, f), p) == Filter(s, p)
  {
    if s != [] {
      assert forall i | 0 <= i < |s[1..]| :: s[1..][i] == s[i + 1];
      RewriteKeepsFilter(s[1..], f, p);
      assert Map(s, f)[1..] == Map(s[1..], f);
    }
  }

  lemma StepKeepsPublished(db: Db, db': Db, versions: seq<Option<string>>)
    requires Published(db, versions) && Step(db, db')
    ensures Published(db', versions)
  {
    forall v | v in versions ensures Exists(db', v.value) {
      var id :| id in db.studies
                && exists i | 0 <= i < |db.studies[id].dataVersions| :: db.studies[id].dataVersions[i].id == v.value;
      var i :| 0 <= i < |db.studies[id].dataVersions| && db.studies[id].dataVersions[i].id == v.value;
      assert db'.studies[id].dataVersions[i].id == v.value;
    }
  }

  lemma StepKeepsSnapshot(db: Db, db': Db, versions: seq<Option<string>>)
    requires Published(db, versions) && Step(db, db')
    ensures SameAt(db, db', versions)
  {
    if Appends(db, db') {
      AppendKeepsFilter(db.fields, db'.fields, FieldIn(versions));
      AppendKeepsFilter(db.data, db'.data, DataIn(versions));
    } else if studyId, v :| Publishes(db, db', studyId, v) {
      assert Some(v.id) !in versions;
      assert None !in versions;
      RewriteKeepsFilter(db.fields, StampField(studyId, v.id), FieldIn(versions));
      RewriteKeepsFilter(db.data, StampData(studyId, v.id), DataIn(versions));
    }
  }

  lemma {:induction false} RunKeepsSnapshot(dbs: seq<Db>, n: nat, versions: seq<Option<string>>)
    requires Run(dbs) && n < |dbs| && Published(dbs[0], versions)
    ensures Published(dbs[n], versions) && SameAt(dbs[0], dbs[n], versions)
    ensures dbs[0].studies.Keys <= dbs[n].studies.Keys
  {
    if n > 0 {
      RunKeepsSnapshot(dbs, n - 1, versions);
      StepKeepsPublished(dbs[n - 1], dbs[n], versions);
      StepKeepsSnapshot(dbs[n - 1], dbs[n], versions);
    }
  }

  /** A read that only covers versions at which two states agree gives the same in both. */
  lemma SameFields(db: Db, db': Db, reader: Reader, studyId: string, versions: seq<Option<string>>,
                   selected: Option<seq<string>>)
    requires SameAt(db, db', versions)
    ensures FieldsAt(db, reader, studyId, versions, selected) == FieldsAt(db', reader, studyId, versions, selected)
  {
    var p := FieldMatch(reader, studyId, versions, selected);
    FilterNarrow(db.fields, FieldIn(versions), p);
    FilterNarrow(db'.fields, FieldIn(versions), p);
  }

  lemma {:induction false} SameQuery(db: Db, db': Db, reader: Reader, studyId: string, versions: seq<Option<string>>,
                                     available: map<string, FieldDoc>, fieldIds: seq<string>)
    requires SameAt(db, db', versions)
    ensures QueryFields(db, reader, studyId, versions, available, fieldIds)
         == QueryFields(db', reader, studyId, versions, available, fieldIds)
  {
    if fieldIds != [] {
      SameQuery(db, db', reader, studyId, versions, available, fieldIds[1..]);
      var p := DataMatch(reader, studyId, versions, fieldIds[0]);
      FilterNarrow(db.data, DataIn(versions), p);
      FilterNarrow(db'.data, DataIn(versions), p);
    }
  }

  /** The versions a caller named explicitly. */
  function NamedVersions(q: VersionQuery): seq<Option<string>>
    requires q.One? || q.Many?
  {
    if q.One? then [Some(q.version)] else q.versions
  }

  /** Once its versions are published, a read at named versions returns the same rows for ever. */
  lemma SnapshotIsImmutable(dbs: seq<Db>, n: nat, reader: Reader, studyId: string, q: VersionQuery,
                            selected: Option<seq<string>>)
    requires Run(dbs) && n < |dbs|
    requires q.One? || q.Many?
    requires Published(dbs[0], NamedVersions(q)) && studyId in dbs[0].studies
    ensures GetStudyData(dbs[n], reader, studyId, q, selected) == GetStudyData(dbs[0], reader, studyId, q, selected)
  {
    var versions := NamedVersions(q);
    RunKeepsSnapshot(dbs, n, versions);
    SameFields(dbs[0], dbs[n], reader, studyId, versions, None);
    var available := FieldsAt(dbs[0], reader, studyId, versions, None);
    forall ids ensures QueryFields(dbs[0], reader, studyId, versions, ById(available), ids)
                    == QueryFields(dbs[n], reader, studyId, versions, ById(available), ids) {
      SameQuery(dbs[0], dbs[n], reader, studyId, versions, ById(available), ids);
    }
  }

  /** The same for the fields. */
  lemma FieldSnapshotIsImmutable(dbs: seq<Db>, n: nat, reader: Reader, studyId: string, q: VersionQuery,
                                 selected: Option<seq<string>>)
    requires Run(dbs) && n < |dbs|
    requires q.One? || q.Many?
    requires Published(dbs[0], NamedVersions(q)) && studyId in dbs[0].studies
    ensures GetStudyFields(dbs[n], reader, studyId, q, selected) == GetStudyFields(dbs[0], reader, studyId, q, selected)
  {
    var versions := NamedVersions(q);
    RunKeepsSnapshot(dbs, n, versions);
    SameFields(dbs[0], dbs[n], reader, studyId, versions, selected);
    hide FieldsAt;
  }

  // ----- publishing ---------------------------------------------------------

  /** A document of the study is in the scope of the default read. */
  ghost predicate InDefaultScope(db: Db, studyId: string, version: Option<string>)
    requires studyId in db.studies
  {
    version in DataVersions(db.studies[studyId], Default)
  }

  ghost predicate CurrentIsLast(study: Study) { study.currentDataVersion == |study.dataVersions| - 1 }

  lemma DefaultScope(study: Study, version: Option<string>)
    requires -1 <= study.currentDataVersion < |study.dataVersions|
    ensures version in DataVersions(study, Default)
       <==> version == None
            || exists i | 0 <= i <= study.currentDataVersion :: version == Some(study.dataVersions[i].id)
  {
    var ids := PublishedUpToCurrent(study);
    var all := DataVersions(study, Default);
    assert all[|ids|] == None;
    assert forall i | 0 <= i < |ids| :: all[i] == ids[i] == Some(study.dataVersions[i].id);
  }

  /** When the current version is the last one, publishing keeps every document of the study in
      or out of the default scope. */
  lemma PublishKeepsScope(db: Db, studyId: string, v: Version, version: Option<string>)
    requires WellFormed(db) && studyId in db.studies && CurrentIsLast(db.studies[studyId])
    requires version != Some(v.id)
    ensures InDefaultScope(Publish(db, studyId, v), studyId, if version == None then Some(v.id) else version)
       <==> InDefaultScope(db, studyId, version)
  {
    var study, now := db.studies[studyId], Publish(db, studyId, v).studies[studyId];
    var stamped := if version == None then Some(v.id) else version;
    DefaultScope(study, version);
    DefaultScope(now, stamped);
    assert now.dataVersions[|study.dataVersions|] == v;
    forall i | 0 <= i <= study.currentDataVersion ensures now.dataVersions[i] == study.dataVersions[i] {
    }
  }

  /** No right of the reader depends on whether a document is published. */
  ghost predicate SeesUnpublished(reader: Reader) {
    forall role | role in reader.roles :: forall p | p in role.dataPermissions :: p.includeUnVersioned
  }

  /** The fields a default read of the data finds. */
  function DefaultFields(db: Db, reader: Reader, studyId: string): seq<FieldDoc>
    requires studyId in db.studies
  {
    FieldsAt(db, reader, studyId, DataVersions(db.studies[studyId], Default), None)
  }

  function DefaultMatch(db: Db, reader: Reader, studyId: string, fieldId: string): DataDoc -> bool
    requires studyId in db.studies
  {
    DataMatch(reader, studyId, DataVersions(db.studies[studyId], Default), fieldId)
  }

  lemma PublishKeepsFields(db: Db, studyId: string, v: Version, reader: Reader)
    requires WellFormed(db) && studyId in db.studies && CurrentIsLast(db.studies[studyId])
    requires FreshVersion(db, v.id)
    ensures DefaultFields(Publish(db, studyId, v), reader, studyId)
         == Map(DefaultFields(db, reader, studyId), StampField(studyId, v.id))
  {
    var after, f := Publish(db, studyId, v), StampField(studyId, v.id);
    var p := FieldMatch(reader, studyId, DataVersions(db.studies[studyId], Default), None);
    var q := FieldMatch(reader, studyId, DataVersions(after.studies[studyId], Default), None);
    forall i | 0 <= i < |db.fields| ensures q(f(db.fields[i])) == p(db.fields[i]) {
      PublishKeepsScope(db, studyId, v, db.fields[i].dataVersion);
    }
    FilterMap(db.fields, f, q, p);
    LatestPerMap(Filter(db.fields, p), f, FieldKey(), FieldTime());
    var latest := LatestPer(Filter(db.fields, p), FieldKey(), FieldTime());
    FilterMap(latest, f, FieldAlive(), FieldAlive());
  }

  lemma PublishKeepsQuery(db: Db, studyId: string, v: Version, reader: Reader, fieldId: string, props: seq<Property>)
    requires WellFormed(db) && studyId in db.studies && CurrentIsLast(db.studies[studyId])
    requires FreshVersion(db, v.id) && SeesUnpublished(reader)
    ensures var after := Publish(db, studyId, v);
      LatestAlive(Filter(after.data, DefaultMatch(after, reader, studyId, fieldId)), props)
      == Map(LatestAlive(Filter(db.data, DefaultMatch(db, reader, studyId, fieldId)), props), StampData(studyId, v.id))
  {
    var f := StampData(studyId, v.id);
    var p := DefaultMatch(db, reader, studyId, fieldId);
    var q := DefaultMatch(Publish(db, studyId, v), reader, studyId, fieldId);
    forall i | 0 <= i < |db.data| ensures q(f(db.data[i])) == p(db.data[i]) {
      PublishKeepsScope(db, studyId, v, db.data[i].dataVersion);
      StampKeepsAdmission(reader, studyId, v.id, db.data[i]);
    }
    FilterMap(db.data, f, q, p);
    var matched, key := Filter(db.data, p), PropertyTuple(props);
    LatestPerMap(matched, f, key, DataTime());
    FilterMap(LatestPer(matched, key, DataTime()), f, DataAlive(), DataAlive());
  }

  lemma StampKeepsAdmission(reader: Reader, studyId: string, v: string, d: DataDoc)
    requires SeesUnpublished(reader)
    ensures Admits(reader, StampData(studyId, v)(d)) == Admits(reader, d)
  {
    var d' := StampData(studyId, v)(d);
    forall role, p | role in reader.roles && p in role.dataPermissions
      ensures PermissionAdmits(reader, p, d') == PermissionAdmits(reader, p, d) {
    }
  }

  lemma {:induction false} StampKeepsIndex(fields: seq<FieldDoc>, studyId: string, v: string)
    ensures SameDeclarations(ById(fields), ById(Map(fields, StampField(studyId, v))))
  {
    if fields != [] {
      var n := |fields| - 1;
      StampKeepsIndex(fields[..n], studyId, v);
      assert Map(fields, StampField(studyId, v))[..n] == Map(fields[..n], StampField(studyId, v));
    }
  }

  /** The two indexes know the same fields with the same declarations. */
  ghost predicate SameDeclarations(a: map<string, FieldDoc>, b: map<string, FieldDoc>) {
    b.Keys == a.Keys && forall k | k in a :: b[k].info == a[k].info
  }

  function DefaultQuery(db: Db, reader: Reader, studyId: string, available: map<string, FieldDoc>,
                        ids: seq<string>): seq<DataDoc>
    requires studyId in db.studies
  {
    QueryFields(db, reader, studyId, DataVersions(db.studies[studyId], Default), available, ids)
  }

  lemma {:induction false} PublishKeepsQueries(db: Db, studyId: string, v: Version, reader: Reader,
                                               a: map<string, FieldDoc>, b: map<string, FieldDoc>, ids: seq<string>)
    requires WellFormed(db) && studyId in db.studies && CurrentIsLast(db.studies[studyId])
    requires FreshVersion(db, v.id) && SeesUnpublished(reader)
    requires SameDeclarations(a, b)
    ensures DefaultQuery(Publish(db, studyId, v), reader, studyId, b, ids)
         == Map(DefaultQuery(db, reader, studyId, a, ids), StampData(studyId, v.id))
  {
    hide Filter, LatestAlive, WellFormed, FreshVersion, SeesUnpublished, DataVersions;
    if ids != [] {
      PublishKeepsQueries(db, studyId, v, reader, a, b, ids[1..]);
      if ids[0] in a {
        PublishKeepsQuery(db, studyId, v, reader, ids[0], a[ids[0]].info.properties);
      }
    }
  }

  /** A row without its version stamp. */
  function Unstamp(): Row -> Row { (r: Row) => r.(dataVersion := None) }

  /** Publishing changes no default view but for the stamps, when the current version was the last
      one and the reader may see unpublished data. */
  lemma PublishKeepsView(db: Db, studyId: string, v: Version, reader: Reader, selected: Option<seq<string>>)
    requires WellFormed(db) && studyId in db.studies && CurrentIsLast(db.studies[studyId])
    requires FreshVersion(db, v.id) && SeesUnpublished(reader) && reader.roles != []
    ensures var before := GetStudyData(db, reader, studyId, Default, selected);
            var after := GetStudyData(Publish(db, studyId, v), reader, studyId, Default, selected);
            before.Ok? && after.Ok? && Map(after.value, Unstamp()) == Map(before.value, Unstamp())
  {
    hide Filter, LatestAlive, WellFormed, FreshVersion, SeesUnpublished, FieldsAt, SameDeclarations, ById, DataVersions;
    var db' := Publish(db, studyId, v);
    var fields, fields' := DefaultFields(db, reader, studyId), DefaultFields(db', reader, studyId);
    PublishKeepsFields(db, studyId, v, reader);
    StampKeepsIndex(fields, studyId, v.id);
    assert Map(fields', FieldKey()) == Map(fields, FieldKey());
    var ids := match selected case Some(ids) => ids case None => Map(fields, FieldKey());
    PublishKeepsQueries(db, studyId, v, reader, ById(fields), ById(fields'), ids);
  }

  // ----- the log is a map ---------------------------------------------------

  type Tuple = map<string, Value>

  /** One document replayed on a plain map: an upload puts, a deletion removes. */
  function PutOrRemove(m: map<Tuple, DataDoc>, props: seq<Property>, d: DataDoc): map<Tuple, DataDoc> {
    var k := PropertyTuple(props)(d);
    if d.life.deletedTime == None then m[k := d] else m - {k}
  }

  function Replay(docs: seq<DataDoc>, props: seq<Property>): map<Tuple, DataDoc> {
    if docs == [] then map[]
    else PutOrRemove(Replay(docs[..|docs| - 1], props), props, docs[|docs| - 1])
  }

  /** Documents of one property tuple are stored at increasing times. Clips of different tuples, as one upload
      stores them, may share a time. */
  ghost predicate Clocked(docs: seq<DataDoc>, props: seq<Property>) {
    forall i, j | 0 <= i < j < |docs| && PropertyTuple(props)(docs[i]) == PropertyTuple(props)(docs[j]) ::
      docs[i].life.createdTime < docs[j].life.createdTime
  }

  /** The map holds exactly the live documents that are the newest of their tuple. */
  lemma {:induction false} ReplayMember(docs: seq<DataDoc>, props: seq<Property>, k: Tuple, d: DataDoc)
    requires Clocked(docs, props)
    ensures k in Replay(docs, props) && Replay(docs, props)[k] == d
       <==> k == PropertyTuple(props)(d) && DataAlive()(d) && IsLatest(docs, PropertyTuple(props), DataTime(), d)
  {
    if docs != [] {
      var n := |docs| - 1;
      assert Clocked(docs[..n], props);
      ReplayMember(docs[..n], props, k, d);
      LatestAfterAppend(docs, props, d);
    }
  }

  /** A new newest document replaces the latest one of its key and leaves the others. */
  lemma LatestAfterAppend(docs: seq<DataDoc>, props: seq<Property>, d: DataDoc)
    requires Clocked(docs, props) && docs != []
    ensures IsLatest(docs, PropertyTuple(props), DataTime(), d)
       <==> if PropertyTuple(props)(d) == PropertyTuple(props)(docs[|docs| - 1]) then d == docs[|docs| - 1]
            else IsLatest(docs[..|docs| - 1], PropertyTuple(props), DataTime(), d)
  {
    var n, key := |docs| - 1, PropertyTuple(props);
    var front, last := docs[..n], docs[n];
    assert forall e :: e in docs <==> e in front || e == last;
    forall e | e in front && key(e) == key(last) ensures e.life.createdTime < last.life.createdTime {
      var i :| 0 <= i < n && docs[i] == e;
    }
    assert DataTime()(last) == last.life.createdTime;
    assert last in docs;
    hide PropertyTuple, Clocked;
  }

  /** Reading the log of one field gives the documents of the replayed map, each under its tuple. */
  lemma LogIsMap(docs: seq<DataDoc>, props: seq<Property>, d: DataDoc)
    requires Clocked(docs, props)
    ensures d in LatestAlive(docs, props)
       <==> PropertyTuple(props)(d) in Replay(docs, props) && Replay(docs, props)[PropertyTuple(props)(d)] == d
    ensures forall k | k in Replay(docs, props) :: PropertyTuple(props)(Replay(docs, props)[k]) == k
    ensures Distinct(Map(LatestPer(docs, PropertyTuple(props), DataTime()), PropertyTuple(props)))
  {
    var key := PropertyTuple(props);
    FilterMember(LatestPer(docs, key, DataTime()), DataAlive(), d);
    assert DistinctTimes(docs, key, DataTime());
    LatestPerMember(docs, key, DataTime(), d);
    LatestPerKeys(docs, key, DataTime());
    ReplayMember(docs, props, key(d), d);
    forall k | k in Replay(docs, props) ensures key(Replay(docs, props)[k]) == k {
      ReplayMember(docs, props, k, Replay(docs, props)[k]);
    }
  }

  function OfField(studyId: string, fieldId: string): DataDoc -> bool {
    (d: DataDoc) => d.studyId == studyId && d.fieldId == fieldId
  }

  /** The field's log as a map. */
  function Stored(db: Db, studyId: string, fieldId: string, props: seq<Property>): map<Tuple, DataDoc> {
    Replay(Filter(db.data, OfField(studyId, fieldId)), props)
  }

  /** The reader may see every document of the field at these versions, and the field's log is clocked. */
  ghost predicate SeesLog(db: Db, reader: Reader, studyId: string, versions: seq<Option<string>>, fieldId: string,
                          props: seq<Property>)
  {
    && (forall e | e in db.data && OfField(studyId, fieldId)(e) :: e.dataVersion in versions && Admits(reader, e))
    && Clocked(Filter(db.data, OfField(studyId, fieldId)), props)
  }

  /** What a reader admitted to all of a field's documents gets is the field's log replayed. */
  lemma ReadIsReplay(db: Db, reader: Reader, studyId: string, versions: seq<Option<string>>,
                     available: map<string, FieldDoc>, fieldId: string, d: DataDoc)
    requires fieldId in available && SeesLog(db, reader, studyId, versions, fieldId, available[fieldId].info.properties)
    ensures var props := available[fieldId].info.properties;
            var stored := Stored(db, studyId, fieldId, props);
            var k := PropertyTuple(props)(d);
            d in QueryField(db, reader, studyId, versions, available, fieldId) <==> k in stored && stored[k] == d
  {
    var p, q := DataMatch(reader, studyId, versions, fieldId), OfField(studyId, fieldId);
    FilterAgrees(db.data, p, q);
    LogIsMap(Filter(db.data, q), available[fieldId].info.properties, d);
  }

  lemma {:induction false} QueryFieldsMember(db: Db, reader: Reader, studyId: string, versions: seq<Option<string>>,
                                             available: map<string, FieldDoc>, ids: seq<string>, d: DataDoc)
    ensures d in QueryFields(db, reader, studyId, versions, available, ids) <==>
      exists id :: id in ids && d in QueryField(db, reader, studyId, versions, available, id)
  {
    hide QueryField;
    if ids != [] {
      QueryFieldsMember(db, reader, studyId, versions, available, ids[1..], d);
      assert forall id :: id in ids <==> id == ids[0] || id in ids[1..];
    }
  }

  /** The field ids a default or selective read goes through. */
  function IdsRead(db: Db, reader: Reader, studyId: string, versions: seq<Option<string>>,
                   selected: Option<seq<string>>): seq<string> {
    match selected
    case Some(ids) => ids
    case None => Map(FieldsAt(db, reader, studyId, versions, None), FieldKey())
  }

  function FieldsRead(db: Db, reader: Reader, studyId: string, versions: seq<Option<string>>): map<string, FieldDoc> {
    ById(FieldsAt(db, reader, studyId, versions, None))
  }

  /** The row of an entry of some field's map. */
  ghost predicate IsStoredRow(db: Db, studyId: string, available: map<string, FieldDoc>, ids: seq<string>, row: Row) {
    exists id, k :: id in ids && id in available
      && k in Stored(db, studyId, id, available[id].info.properties)
      && row == Project()(Stored(db, studyId, id, available[id].info.properties)[k])
  }

  /** The reader sees the log of every field of the list it can find. */
  ghost predicate SeesLogs(db: Db, reader: Reader, studyId: string, versions: seq<Option<string>>,
                           available: map<string, FieldDoc>, ids: seq<string>)
  {
    forall id | id in ids && id in available ::
      SeesLog(db, reader, studyId, versions, id, available[id].info.properties)
  }

  lemma QueriedIsStored(db: Db, reader: Reader, studyId: string, versions: seq<Option<string>>,
                        available: map<string, FieldDoc>, ids: seq<string>, d: DataDoc)
    requires SeesLogs(db, reader, studyId, versions, available, ids)
    requires d in QueryFields(db, reader, studyId, versions, available, ids)
    ensures IsStoredRow(db, studyId, available, ids, Project()(d))
  {
    hide SeesLog, Stored, QueryFields, QueryField, PropertyTuple;
    QueryFieldsMember(db, reader, studyId, versions, available, ids, d);
    var id :| id in ids && d in QueryField(db, reader, studyId, versions, available, id);
    QueriedIsAvailable(db, reader, studyId, versions, available, id);
    ReadIsReplay(db, reader, studyId, versions, available, id, d);
  }

  lemma StoredIsQueried(db: Db, reader: Reader, studyId: string, versions: seq<Option<string>>,
                        available: map<string, FieldDoc>, ids: seq<string>, row: Row) returns (d: DataDoc)
    requires SeesLogs(db, reader, studyId, versions, available, ids)
    requires IsStoredRow(db, studyId, available, ids, row)
    ensures d in QueryFields(db, reader, studyId, versions, available, ids) && Project()(d) == row
  {
    hide SeesLog, Stored, QueryFields, QueryField, PropertyTuple;
    var id, k :| id in ids && id in available && k in Stored(db, studyId, id, available[id].info.properties)
      && row == Project()(Stored(db, studyId, id, available[id].info.properties)[k]);
    d := Stored(db, studyId, id, available[id].info.properties)[k];
    StoredUnderItsTuple(db, reader, studyId, versions, id, available[id].info.properties, k);
    ReadIsReplay(db, reader, studyId, versions, available, id, d);
    QueryFieldsMember(db, reader, studyId, versions, available, ids, d);
  }

  /** The rows of a data read are exactly the entries of the replayed logs of the fields it goes through. */
  lemma RowsAreReplay(db: Db, reader: Reader, studyId: string, q: VersionQuery, selected: Option<seq<string>>, row: Row)
    requires reader.roles != [] && !HasEmptyRole(reader) && studyId in db.studies
    requires var versions := DataVersions(db.studies[studyId], q);
      SeesLogs(db, reader, studyId, versions, FieldsRead(db, reader, studyId, versions),
               IdsRead(db, reader, studyId, versions, selected))
    ensures GetStudyData(db, reader, studyId, q, selected).Ok?
    ensures var versions := DataVersions(db.studies[studyId], q);
      row in GetStudyData(db, reader, studyId, q, selected).value <==>
      IsStoredRow(db, studyId, FieldsRead(db, reader, studyId, versions),
                  IdsRead(db, reader, studyId, versions, selected), row)
  {
    var versions := DataVersions(db.studies[studyId], q);
    var available, ids := FieldsRead(db, reader, studyId, versions), IdsRead(db, reader, studyId, versions, selected);
    var docs := QueryFields(db, reader, studyId, versions, available, ids);
    assert GetStudyData(db, reader, studyId, q, selected) == Ok(Map(docs, Project()));
    hide GetStudyData, FieldsRead, IdsRead, DataVersions, QueryFields, SeesLogs, IsStoredRow;
    if row in Map(docs, Project()) {
      var i :| 0 <= i < |docs| && Project()(docs[i]) == row;
      QueriedIsStored(db, reader, studyId, versions, available, ids, docs[i]);
    }
    if IsStoredRow(db, studyId, available, ids, row) {
      var d := StoredIsQueried(db, reader, studyId, versions, available, ids, row);
      var i :| 0 <= i < |docs| && docs[i] == d;
      assert Map(docs, Project())[i] == row;
    }
  }

  lemma QueriedIsAvailable(db: Db, reader: Reader, studyId: string, versions: seq<Option<string>>,
                           available: map<string, FieldDoc>, id: string)
    ensures QueryField(db, reader, studyId, versions, available, id) != [] ==> id in available
  {
  }

  lemma StoredUnderItsTuple(db: Db, reader: Reader, studyId: string, versions: seq<Option<string>>, id: string,
                            props: seq<Property>, k: Tuple)
    requires SeesLog(db, reader, studyId, versions, id, props) && k in Stored(db, studyId, id, props)
    ensures PropertyTuple(props)(Stored(db, studyId, id, props)[k]) == k
  {
    LogIsMap(Filter(db.data, OfField(studyId, id)), props, Stored(db, studyId, id, props)[k]);
  }

  // ----- what a read returns ------------------------------------------------

  /** The stored field is one of those the read is about. */
  predicate FieldInScope(reader: Reader, studyId: string, versions: seq<Option<string>>, selected: Option<seq<string>>,
                         f: FieldDoc) {
    && f.studyId == studyId && f.dataVersion in versions
    && (selected.Some? ==> f.fieldId in selected.value)
    && (selected.None? ==> MayTouchField(reader, f.fieldId, 4))
  }

  /** A field read returns exactly the fields in scope that are the newest of their id there and no tombstones. */
  lemma FieldsAreNewestAlive(db: Db, reader: Reader, studyId: string, versions: seq<Option<string>>,
                             selected: Option<seq<string>>, f: FieldDoc)
    requires DistinctTimes(Filter(db.fields, FieldMatch(reader, studyId, versions, selected)), FieldKey(), FieldTime())
    ensures f in FieldsAt(db, reader, studyId, versions, selected) <==>
      && f in db.fields && FieldInScope(reader, studyId, versions, selected, f) && f.life.deletedTime == None
      && forall g | g in db.fields && FieldInScope(reader, studyId, versions, selected, g) && g.fieldId == f.fieldId ::
           g.life.createdTime <= f.life.createdTime
  {
    var p := FieldMatch(reader, studyId, versions, selected);
    var matched := Filter(db.fields, p);
    forall g ensures g in matched <==> g in db.fields && FieldInScope(reader, studyId, versions, selected, g) {
      FilterMember(db.fields, p, g);
    }
    LatestPerMember(matched, FieldKey(), FieldTime(), f);
    FilterMember(LatestPer(matched, FieldKey(), FieldTime()), FieldAlive(), f);
    hide Filter, LatestPer, FieldsAt, FieldInScope;
  }

  /** The stored document is one the reader may see at these versions. */
  predicate DataInScope(reader: Reader, studyId: string, versions: seq<Option<string>>, fieldId: string, d: DataDoc) {
    && d.studyId == studyId && d.fieldId == fieldId && d.dataVersion in versions
    && (d.life.createdUser == reader.requester
        || exists role, p | role in reader.roles && p in role.dataPermissions :: PermissionAdmits(reader, p, d))
  }

  /** A data read of one field returns exactly the documents in scope that are the newest of their property
      tuple there and no tombstones, and nothing where the reader does not find the field. */
  lemma QueryIsNewestAlive(db: Db, reader: Reader, studyId: string, versions: seq<Option<string>>,
                           available: map<string, FieldDoc>, fieldId: string, d: DataDoc)
    requires fieldId in available ==>
      DistinctTimes(Filter(db.data, DataMatch(reader, studyId, versions, fieldId)),
                    PropertyTuple(available[fieldId].info.properties), DataTime())
    ensures d in QueryField(db, reader, studyId, versions, available, fieldId) <==>
      && fieldId in available && d in db.data && DataInScope(reader, studyId, versions, fieldId, d)
      && d.life.deletedTime == None
      && var key := PropertyTuple(available[fieldId].info.properties);
         forall e | e in db.data && DataInScope(reader, studyId, versions, fieldId, e) && key(e) == key(d) ::
           e.life.createdTime <= d.life.createdTime
  {
    if fieldId in available {
      var p, key := DataMatch(reader, studyId, versions, fieldId), PropertyTuple(available[fieldId].info.properties);
      var matched := Filter(db.data, p);
      forall e ensures e in matched <==> e in db.data && DataInScope(reader, studyId, versions, fieldId, e) {
        FilterMember(db.data, p, e);
      }
      LatestPerMember(matched, key, DataTime(), d);
      FilterMember(LatestPer(matched, key, DataTime()), DataAlive(), d);
      hide Filter, LatestPer, DataInScope, PropertyTuple;
    }
  }
}
