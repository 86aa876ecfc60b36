/** What the reads of fields and data give, said of the stored documents and the reader's permissions alone. */
module DataReads {
  import opened Sequences
  import opened Documents
  import opened Json
  import opened StudyData
  import opened StudyHistory

  // ----- what a reader may be given -----------------------------------------

  ghost predicate Fits(reader: Reader, patterns: seq<string>, text: string) {
    exists re :: re in patterns && reader.matches(re, text)
  }

  /** The permission names the document's field, has a pattern for each property it restricts, and is for documents not
      published yet if this is one. */
  ghost predicate Covers(reader: Reader, p: Permission, d: DataDoc) {
    && Fits(reader, p.fields, d.fieldId)
    && (forall k | k in p.dataProperties ::
          k in d.properties && d.properties[k].Str? && Fits(reader, p.dataProperties[k], d.properties[k].s))
    && (d.dataVersion == None ==> p.includeUnVersioned)
  }

  ghost predicate MayBeGiven(reader: Reader, d: DataDoc) {
    || d.life.createdUser == reader.requester
    || exists role, p :: role in reader.roles && p in role.dataPermissions && Covers(reader, p, d)
  }

  /** Some permission has the bit of the given value and names the field. */
  ghost predicate HasRight(reader: Reader, fieldId: string, bit: nat)
    requires bit > 0
  {
    exists role, p :: role in reader.roles && p in role.dataPermissions
      && p.permission / bit % 2 == 1 && Fits(reader, p.fields, fieldId)
  }

  ghost predicate MayFind(reader: Reader, fieldId: string) { HasRight(reader, fieldId, 4) }

  ghost predicate EachRoleUsable(reader: Reader) {
    forall role | role in reader.roles :: exists p :: p in role.dataPermissions && p.fields != []
  }

  /** A version of the study that is not after the current one. */
  ghost predicate IsCurrent(study: Study, v: Option<string>) {
    exists i: nat :: i < |study.dataVersions| && i <= study.currentDataVersion && v == Some(study.dataVersions[i].id)
  }

  /** By default documents that are not published yet are read for data, and not for a list of fields. */
  ghost predicate VersionRead(study: Study, q: VersionQuery, forData: bool, v: Option<string>) {
    match q
    case Default => (forData && v == None) || IsCurrent(study, v)
    case Unversioned => v == None
    case One(w) => v == Some(w)
    case Many(vs) => v in vs
  }

  lemma AdmitsIff(reader: Reader, d: DataDoc)
    ensures Admits(reader, d) <==> MayBeGiven(reader, d)
  {
    forall p ensures PermissionAdmits(reader, p, d) <==> Covers(reader, p, d) {
      PermissionIff(reader, p, d);
    }
    hide PermissionAdmits, Covers;
  }

  lemma FitsIff(reader: Reader, patterns: seq<string>, text: string)
    ensures MatchesAny(reader, patterns, text) <==> Fits(reader, patterns, text)
  {
  }

  lemma PermissionIff(reader: Reader, p: Permission, d: DataDoc)
    ensures PermissionAdmits(reader, p, d) <==> Covers(reader, p, d)
  {
    FitsIff(reader, p.fields, d.fieldId);
    if p.fields == [] { assert !Fits(reader, p.fields, d.fieldId); }
    forall k | k in p.dataProperties && k in d.properties && d.properties[k].Str?
      ensures MatchesAny(reader, p.dataProperties[k], d.properties[k].s)
         <==> Fits(reader, p.dataProperties[k], d.properties[k].s)
    {
      FitsIff(reader, p.dataProperties[k], d.properties[k].s);
    }
    hide MatchesAny, Fits;
  }

  lemma HasRightIff(reader: Reader, fieldId: string, bit: nat)
    requires bit > 0
    ensures MayTouchField(reader, fieldId, bit) <==> HasRight(reader, fieldId, bit)
  {
    forall p: Permission ensures MatchesAny(reader, p.fields, fieldId) <==> Fits(reader, p.fields, fieldId) {
      FitsIff(reader, p.fields, fieldId);
    }
    hide MatchesAny, Fits;
  }

  lemma CurrentIff(study: Study, v: Option<string>)
    ensures v in PublishedUpToCurrent(study) <==> IsCurrent(study, v)
  {
    var n := study.currentDataVersion + 1;
    var kept :=
      if n <= 0 then [] else if n <= |study.dataVersions| then study.dataVersions[..n] else study.dataVersions;
    if v in PublishedUpToCurrent(study) {
      var i :| 0 <= i < |kept| && Map(kept, VersionId())[i] == v;
    }
    if i: nat :| i < |study.dataVersions| && i <= study.currentDataVersion && v == Some(study.dataVersions[i].id) {
      assert Map(kept, VersionId())[i] == v;
    }
  }

  function Versions(study: Study, q: VersionQuery, forData: bool): seq<Option<string>> {
    if forData then DataVersions(study, q) else FieldVersions(study, q)
  }

  lemma VersionsIff(study: Study, q: VersionQuery, forData: bool)
    ensures forall v :: v in Versions(study, q, forData) <==> VersionRead(study, q, forData, v)
  {
    forall v ensures v in Versions(study, q, forData) <==> VersionRead(study, q, forData, v) { CurrentIff(study, v); }
  }

  // ----- fields -------------------------------------------------------------

  /** The stored field is one of those the read is about; named fields are not asked for a right. */
  ghost predicate FieldAskedFor(db: Db, reader: Reader, studyId: string, q: VersionQuery, forData: bool,
                                selected: Option<seq<string>>, f: FieldDoc)
    requires studyId in db.studies
  {
    && f in db.fields && f.studyId == studyId && VersionRead(db.studies[studyId], q, forData, f.dataVersion)
    && match selected case Some(ids) => f.fieldId in ids case None => MayFind(reader, f.fieldId)
  }

  /** It is live and the newest of its id. */
  ghost predicate FieldGiven(db: Db, reader: Reader, studyId: string, q: VersionQuery, forData: bool,
                             selected: Option<seq<string>>, f: FieldDoc)
    requires studyId in db.studies
  {
    && FieldAskedFor(db, reader, studyId, q, forData, selected, f) && f.life.deletedTime == None
    && forall g | FieldAskedFor(db, reader, studyId, q, forData, selected, g) && g.fieldId == f.fieldId ::
         g.life.createdTime <= f.life.createdTime
  }

  /** No two documents of one field have the same creation time. */
  ghost predicate FieldTimesDistinct(db: Db) {
    forall i, j | 0 <= i < j < |db.fields| && db.fields[i].fieldId == db.fields[j].fieldId ::
      db.fields[i].life.createdTime != db.fields[j].life.createdTime
  }

  lemma {:induction false} FilterTimesDistinct<T, K>(docs: seq<T>, p: T -> bool, key: T -> K, time: T -> int)
    requires forall i, j | 0 <= i < j < |docs| && p(docs[i]) && p(docs[j]) && key(docs[i]) == key(docs[j]) ::
               time(docs[i]) != time(docs[j])
    ensures DistinctTimes(Filter(docs, p), key, time)
  {
    if docs != [] {
      var rest := docs[1..];
      assert forall i | 0 <= i < |rest| :: rest[i] == docs[i + 1];
      FilterTimesDistinct(rest, p, key, time);
      var kept := Filter(rest, p);
      forall j | 0 <= j < |kept| && p(docs[0]) && key(docs[0]) == key(kept[j]) ensures time(docs[0]) != time(kept[j]) {
        FilterMember(rest, p, kept[j]);
        var k :| 0 <= k < |rest| && rest[k] == kept[j];
        assert docs[k + 1] == kept[j];
      }
      assert p(docs[0]) ==> Filter(docs, p) == [docs[0]] + kept;
    }
  }

  lemma FieldsAtIff(db: Db, reader: Reader, studyId: string, q: VersionQuery, forData: bool,
                    selected: Option<seq<string>>, f: FieldDoc)
    requires FieldTimesDistinct(db) && studyId in db.studies
    ensures f in FieldsAt(db, reader, studyId, Versions(db.studies[studyId], q, forData), selected)
       <==> FieldGiven(db, reader, studyId, q, forData, selected, f)
  {
    var study := db.studies[studyId];
    var versions := Versions(study, q, forData);
    VersionsIff(study, q, forData);
    FilterTimesDistinct(db.fields, FieldMatch(reader, studyId, versions, selected), FieldKey(), FieldTime());
    FieldsAreNewestAlive(db, reader, studyId, versions, selected, f);
    forall g ensures g in db.fields && FieldInScope(reader, studyId, versions, selected, g)
                <==> FieldAskedFor(db, reader, studyId, q, forData, selected, g) {
      HasRightIff(reader, g.fieldId, 4);
    }
    hide FieldsAt, FieldInScope, FieldAskedFor, Versions;
  }

  /** A read of fields: its errors, and otherwise exactly the live fields that are the newest of their id among the
      documents at the versions read, of the field ids named, or without names of those the reader may find. */
  lemma FieldReadIs(db: Db, reader: Reader, studyId: string, q: VersionQuery, selected: Option<seq<string>>,
                    f: FieldDoc)
    requires FieldTimesDistinct(db)
    ensures var r := GetStudyFields(db, reader, studyId, q, selected);
      && (r == Err(NoPermission) <==> reader.roles == [])
      && (r == Err(NonExistent) <==> reader.roles != [] && studyId !in db.studies)
      && (r.Ok? <==> reader.roles != [] && studyId in db.studies)
      && (r.Ok? ==> (f in r.value <==> FieldGiven(db, reader, studyId, q, false, selected, f)))
  {
    if studyId in db.studies {
      FieldsAtIff(db, reader, studyId, q, false, selected, f);
      hide FieldsAt, FieldGiven, FieldVersions;
    }
  }

  // ----- data ---------------------------------------------------------------

  ghost predicate DataAskedFor(db: Db, reader: Reader, studyId: string, q: VersionQuery, fieldId: string, d: DataDoc)
    requires studyId in db.studies
  {
    && d in db.data && d.studyId == studyId && d.fieldId == fieldId
    && VersionRead(db.studies[studyId], q, true, d.dataVersion) && MayBeGiven(reader, d)
  }

  /** The documents have the same of the properties that the field declares. */
  ghost predicate SameProperties(props: seq<Property>, d: DataDoc, e: DataDoc) {
    forall p | p in props ::
      && (p.name in d.properties <==> p.name in e.properties)
      && (p.name in d.properties ==> d.properties[p.name] == e.properties[p.name])
  }

  /** It is live and the newest of its properties in a field that is found. */
  ghost predicate DataGiven(db: Db, reader: Reader, studyId: string, q: VersionQuery, selected: Option<seq<string>>,
                            d: DataDoc)
    requires studyId in db.studies
  {
    && d.life.deletedTime == None && (selected.Some? ==> d.fieldId in selected.value)
    && DataAskedFor(db, reader, studyId, q, d.fieldId, d)
    && exists f :: FieldGiven(db, reader, studyId, q, true, None, f) && f.fieldId == d.fieldId
         && forall e | DataAskedFor(db, reader, studyId, q, d.fieldId, e) && SameProperties(f.info.properties, d, e) ::
              e.life.createdTime <= d.life.createdTime
  }

  /** No two documents of one field with the same properties, as some document of the field declares them, have the same
      creation time. */
  ghost predicate DataTimesDistinct(db: Db) {
    forall f, i, j | f in db.fields && 0 <= i < j < |db.data| && db.data[i].fieldId == db.data[j].fieldId == f.fieldId
                     && SameProperties(f.info.properties, db.data[i], db.data[j]) ::
      db.data[i].life.createdTime != db.data[j].life.createdTime
  }

  lemma SameTupleIff(props: seq<Property>, d: DataDoc, e: DataDoc)
    ensures PropertyTuple(props)(d) == PropertyTuple(props)(e) <==> SameProperties(props, d, e)
  {
    var s, t := PropertyTuple(props)(d), PropertyTuple(props)(e);
    forall p | p in props
      ensures p.name in s <==> p.name in d.properties
      ensures p.name in t <==> p.name in e.properties
    {
      assert Declares(props, p.name);
    }
    if SameProperties(props, d, e) {
      forall name ensures name in s <==> name in t {
        if Declares(props, name) {
          var p :| p in props && p.name == name;
        }
      }
      forall name | name in s ensures s[name] == t[name] {
        var p :| p in props && p.name == name;
      }
    }
  }

  lemma {:induction false} ByIdMember(fields: seq<FieldDoc>, id: string)
    ensures id in ById(fields) <==> exists f :: f in fields && f.fieldId == id
    ensures id in ById(fields) ==> ById(fields)[id] in fields && ById(fields)[id].fieldId == id
  {
    if fields != [] {
      ByIdMember(fields[..|fields| - 1], id);
      assert fields == fields[..|fields| - 1] + [fields[|fields| - 1]];
    }
  }

  lemma OneFieldGiven(db: Db, reader: Reader, studyId: string, q: VersionQuery, f: FieldDoc, g: FieldDoc)
    requires FieldTimesDistinct(db) && studyId in db.studies && f.fieldId == g.fieldId
    requires FieldGiven(db, reader, studyId, q, true, None, f) && FieldGiven(db, reader, studyId, q, true, None, g)
    ensures f == g
  {
    var i :| 0 <= i < |db.fields| && db.fields[i] == f;
    var j :| 0 <= j < |db.fields| && db.fields[j] == g;
    assert f.life.createdTime == g.life.createdTime;
  }

  lemma QueryIff(db: Db, reader: Reader, studyId: string, q: VersionQuery, available: map<string, FieldDoc>,
                 fieldId: string, d: DataDoc)
    requires studyId in db.studies && DataTimesDistinct(db)
    requires fieldId in available ==> available[fieldId] in db.fields && available[fieldId].fieldId == fieldId
    ensures d in QueryField(db, reader, studyId, Versions(db.studies[studyId], q, true), available, fieldId) <==>
      && fieldId in available && DataAskedFor(db, reader, studyId, q, fieldId, d) && d.life.deletedTime == None
      && forall e | DataAskedFor(db, reader, studyId, q, fieldId, e)
                    && SameProperties(available[fieldId].info.properties, d, e) ::
           e.life.createdTime <= d.life.createdTime
  {
    if fieldId in available {
      var study, props := db.studies[studyId], available[fieldId].info.properties;
      var versions := Versions(study, q, true);
      VersionsIff(study, q, true);
      forall i, j | 0 <= i < j < |db.data| && DataMatch(reader, studyId, versions, fieldId)(db.data[i])
                    && DataMatch(reader, studyId, versions, fieldId)(db.data[j])
                    && PropertyTuple(props)(db.data[i]) == PropertyTuple(props)(db.data[j])
        ensures db.data[i].life.createdTime != db.data[j].life.createdTime
      {
        SameTupleIff(props, db.data[i], db.data[j]);
      }
      FilterTimesDistinct(db.data, DataMatch(reader, studyId, versions, fieldId), PropertyTuple(props), DataTime());
      QueryIsNewestAlive(db, reader, studyId, versions, available, fieldId, d);
      forall e
        ensures e in db.data && DataInScope(reader, studyId, versions, fieldId, e)
           <==> DataAskedFor(db, reader, studyId, q, fieldId, e)
        ensures PropertyTuple(props)(e) == PropertyTuple(props)(d) <==> SameProperties(props, d, e)
      {
        AdmitsIff(reader, e);
        SameTupleIff(props, d, e);
      }
      hide QueryField, DataInScope, DataAskedFor, PropertyTuple, SameProperties, Versions;
    }
  }

  /** The fields found, by id, and the ids the read goes through. */
  ghost predicate Looks(db: Db, reader: Reader, studyId: string, q: VersionQuery, selected: Option<seq<string>>,
                        available: map<string, FieldDoc>, ids: seq<string>)
    requires studyId in db.studies
  {
    && (forall f | FieldGiven(db, reader, studyId, q, true, None, f) :: f.fieldId in available)
    && (forall id | id in available ::
          available[id].fieldId == id && FieldGiven(db, reader, studyId, q, true, None, available[id]))
    && forall id :: id in ids <==> match selected case Some(named) => id in named case None => id in available
  }

  lemma ReadLooks(db: Db, reader: Reader, studyId: string, q: VersionQuery, selected: Option<seq<string>>)
    requires FieldTimesDistinct(db) && studyId in db.studies
    ensures var versions := Versions(db.studies[studyId], q, true);
      Looks(db, reader, studyId, q, selected, FieldsRead(db, reader, studyId, versions),
            IdsRead(db, reader, studyId, versions, selected))
  {
    var versions := Versions(db.studies[studyId], q, true);
    var found := FieldsAt(db, reader, studyId, versions, None);
    forall f ensures f in found <==> FieldGiven(db, reader, studyId, q, true, None, f) {
      FieldsAtIff(db, reader, studyId, q, true, None, f);
    }
    forall id
      ensures id in ById(found) <==> exists f :: f in found && f.fieldId == id
      ensures id in ById(found) ==> ById(found)[id] in found && ById(found)[id].fieldId == id
    {
      ByIdMember(found, id);
    }
    forall id ensures id in Map(found, FieldKey()) <==> exists f :: f in found && f.fieldId == id {
      if f :| f in found && f.fieldId == id {
        var i :| 0 <= i < |found| && found[i] == f;
        assert Map(found, FieldKey())[i] == id;
      }
      if id in Map(found, FieldKey()) {
        var i :| 0 <= i < |found| && Map(found, FieldKey())[i] == id;
        assert found[i] in found;
      }
    }
    hide FieldsAt, FieldGiven, ById, Map, Versions;
  }

  lemma QueriedIsGiven(db: Db, reader: Reader, studyId: string, q: VersionQuery, selected: Option<seq<string>>,
                       available: map<string, FieldDoc>, ids: seq<string>, id: string, d: DataDoc)
    requires DataTimesDistinct(db) && studyId in db.studies
    requires Looks(db, reader, studyId, q, selected, available, ids) && id in ids
    requires d in QueryField(db, reader, studyId, Versions(db.studies[studyId], q, true), available, id)
    ensures DataGiven(db, reader, studyId, q, selected, d)
  {
    if id in available { assert FieldGiven(db, reader, studyId, q, true, None, available[id]); }
    QueryIff(db, reader, studyId, q, available, id, d);
    AskedOfField(db, reader, studyId, q, id, d);
    hide QueryField, Versions, DataTimesDistinct, SameProperties, DataAskedFor, FieldGiven;
  }

  lemma GivenIsQueried(db: Db, reader: Reader, studyId: string, q: VersionQuery, selected: Option<seq<string>>,
                       available: map<string, FieldDoc>, ids: seq<string>, d: DataDoc)
    requires FieldTimesDistinct(db) && DataTimesDistinct(db) && studyId in db.studies
    requires Looks(db, reader, studyId, q, selected, available, ids) && DataGiven(db, reader, studyId, q, selected, d)
    ensures d.fieldId in ids
    ensures d in QueryField(db, reader, studyId, Versions(db.studies[studyId], q, true), available, d.fieldId)
  {
    hide QueryField, Versions, FieldTimesDistinct, DataTimesDistinct, SameProperties, DataAskedFor, MayFind;
    var f :| FieldGiven(db, reader, studyId, q, true, None, f) && f.fieldId == d.fieldId
      && forall e | DataAskedFor(db, reader, studyId, q, d.fieldId, e) && SameProperties(f.info.properties, d, e) ::
           e.life.createdTime <= d.life.createdTime;
    assert FieldGiven(db, reader, studyId, q, true, None, available[d.fieldId]);
    OneFieldGiven(db, reader, studyId, q, f, available[d.fieldId]);
    QueryIff(db, reader, studyId, q, available, d.fieldId, d);
  }

  lemma QueriedIff(db: Db, reader: Reader, studyId: string, q: VersionQuery, selected: Option<seq<string>>,
                   available: map<string, FieldDoc>, ids: seq<string>, d: DataDoc)
    requires FieldTimesDistinct(db) && DataTimesDistinct(db) && studyId in db.studies
    requires Looks(db, reader, studyId, q, selected, available, ids)
    ensures d in QueryFields(db, reader, studyId, Versions(db.studies[studyId], q, true), available, ids)
       <==> DataGiven(db, reader, studyId, q, selected, d)
  {
    var versions := Versions(db.studies[studyId], q, true);
    QueryFieldsMember(db, reader, studyId, versions, available, ids, d);
    hide *;
    if id :| id in ids && d in QueryField(db, reader, studyId, versions, available, id) {
      QueriedIsGiven(db, reader, studyId, q, selected, available, ids, id, d);
    }
    if DataGiven(db, reader, studyId, q, selected, d) {
      GivenIsQueried(db, reader, studyId, q, selected, available, ids, d);
    }
  }

  lemma AskedOfField(db: Db, reader: Reader, studyId: string, q: VersionQuery, fieldId: string, d: DataDoc)
    requires studyId in db.studies && DataAskedFor(db, reader, studyId, q, fieldId, d)
    ensures d.fieldId == fieldId
  {
  }

  ghost predicate IsRowOf(row: Row, d: DataDoc) {
    && row.studyId == d.studyId && row.fieldId == d.fieldId && row.dataVersion == d.dataVersion
    && row.value == d.value && row.properties == d.properties
  }

  lemma UsableIff(reader: Reader)
    ensures HasEmptyRole(reader) <==> !EachRoleUsable(reader)
  {
  }

  /** A read of data: its errors, and otherwise, unless a role is unusable, exactly the rows of the live documents that
      the reader may be given, at the versions read, of the fields the reader may find and names, and that are the
      newest of these with their properties. */
  lemma DataReadIs(db: Db, reader: Reader, studyId: string, q: VersionQuery, selected: Option<seq<string>>, row: Row)
    requires FieldTimesDistinct(db) && DataTimesDistinct(db)
    ensures var r := GetStudyData(db, reader, studyId, q, selected);
      && (r == Err(NoPermission) <==> reader.roles == [])
      && (r == Err(NonExistent) <==> reader.roles != [] && studyId !in db.studies)
      && (r.Ok? <==> reader.roles != [] && studyId in db.studies)
      && (r.Ok? ==> (row in r.value <==>
                       EachRoleUsable(reader)
                       && exists d :: DataGiven(db, reader, studyId, q, selected, d) && IsRowOf(row, d)))
  {
    UsableIff(reader);
    if reader.roles != [] && studyId in db.studies && !HasEmptyRole(reader) {
      var versions := Versions(db.studies[studyId], q, true);
      var available, ids := FieldsRead(db, reader, studyId, versions), IdsRead(db, reader, studyId, versions, selected);
      var docs := QueryFields(db, reader, studyId, versions, available, ids);
      assert GetStudyData(db, reader, studyId, q, selected) == Ok(Map(docs, Project()));
      ReadLooks(db, reader, studyId, q, selected);
      hide GetStudyData, HasEmptyRole, EachRoleUsable, FieldsRead, IdsRead, Versions, QueryFields, DataGiven;
      forall d ensures d in docs <==> DataGiven(db, reader, studyId, q, selected, d) {
        QueriedIff(db, reader, studyId, q, selected, available, ids, d);
      }
      RowsOf(docs, row);
    }
  }

  lemma RowsOf(docs: seq<DataDoc>, row: Row)
    ensures row in Map(docs, Project()) <==> exists d :: d in docs && IsRowOf(row, d)
  {
    if row in Map(docs, Project()) {
      var i :| 0 <= i < |docs| && Map(docs, Project())[i] == row;
      assert docs[i] in docs && IsRowOf(row, docs[i]);
    }
    if d :| d in docs && IsRowOf(row, d) {
      var i :| 0 <= i < |docs| && docs[i] == d;
      assert Map(docs, Project())[i] == row;
    }
  }

  lemma {:induction false} QueriesAdd(db: Db, reader: Reader, studyId: string, versions: seq<Option<string>>,
                                      available: map<string, FieldDoc>, ids: seq<string>, more: seq<string>)
    ensures QueryFields(db, reader, studyId, versions, available, ids + more)
         == QueryFields(db, reader, studyId, versions, available, ids)
            + QueryFields(db, reader, studyId, versions, available, more)
    decreases ids
  {
    if ids == [] {
      assert ids + more == more;
    } else {
      assert (ids + more)[1..] == ids[1..] + more;
      QueriesAdd(db, reader, studyId, versions, available, ids[1..], more);
      hide QueryField;
    }
  }

  /** The rows come field by field, in the order in which the fields are named. */
  lemma FieldsInOrder(db: Db, reader: Reader, studyId: string, q: VersionQuery, ids: seq<string>, more: seq<string>)
    requires reader.roles != [] && studyId in db.studies
    ensures GetStudyData(db, reader, studyId, q, Some(ids + more)).value
         == GetStudyData(db, reader, studyId, q, Some(ids)).value
            + GetStudyData(db, reader, studyId, q, Some(more)).value
  {
    var versions := DataVersions(db.studies[studyId], q);
    QueriesAdd(db, reader, studyId, versions, ById(FieldsAt(db, reader, studyId, versions, None)), ids, more);
    hide QueryFields, FieldsAt, ById, DataVersions, HasEmptyRole;
  }

  // ----- every row is covered -----------------------------------------------

  lemma LatestAreDocs<T, K>(docs: seq<T>, key: T -> K, time: T -> int, d: T)
    ensures d in LatestPer(docs, key, time) ==> d in docs
  {
    var s := StableSort(docs, NewerFirst(time));
    FirstPerMember(s, key, d);
    SortMember(docs, NewerFirst(time), d);
    hide StableSort, FirstPer;
  }

  lemma QueriedIsAsked(db: Db, reader: Reader, studyId: string, q: VersionQuery, available: map<string, FieldDoc>,
                       fieldId: string, d: DataDoc)
    requires studyId in db.studies
    requires d in QueryField(db, reader, studyId, Versions(db.studies[studyId], q, true), available, fieldId)
    ensures DataAskedFor(db, reader, studyId, q, fieldId, d) && d.life.deletedTime == None
  {
    var versions := Versions(db.studies[studyId], q, true);
    var matched := Filter(db.data, DataMatch(reader, studyId, versions, fieldId));
    var key := PropertyTuple(available[fieldId].info.properties);
    FilterMember(LatestPer(matched, key, DataTime()), DataAlive(), d);
    LatestAreDocs(matched, key, DataTime(), d);
    FilterMember(db.data, DataMatch(reader, studyId, versions, fieldId), d);
    VersionsIff(db.studies[studyId], q, true);
    AdmitsIff(reader, d);
    hide LatestPer, Filter, Versions, VersionRead, Admits, MayBeGiven;
  }

  /** Whatever the times: every row given is that of a live document, at a version read, which the requester made or
      some permission covers. */
  lemma RowIsCovered(db: Db, reader: Reader, studyId: string, q: VersionQuery, selected: Option<seq<string>>, row: Row)
    returns (d: DataDoc)
    requires GetStudyData(db, reader, studyId, q, selected).Ok?
    requires row in GetStudyData(db, reader, studyId, q, selected).value
    ensures d in db.data && IsRowOf(row, d) && d.studyId == studyId && d.life.deletedTime == None
    ensures studyId in db.studies && VersionRead(db.studies[studyId], q, true, d.dataVersion)
    ensures || d.life.createdUser == reader.requester
            || exists role, p :: role in reader.roles && p in role.dataPermissions && Covers(reader, p, d)
    ensures selected.Some? ==> d.fieldId in selected.value
  {
    var versions := Versions(db.studies[studyId], q, true);
    var available, ids := FieldsRead(db, reader, studyId, versions), IdsRead(db, reader, studyId, versions, selected);
    var docs := QueryFields(db, reader, studyId, versions, available, ids);
    assert GetStudyData(db, reader, studyId, q, selected) == Ok(Map(docs, Project()));
    hide GetStudyData, FieldsRead, Versions, QueryFields, QueryField, Covers, VersionRead;
    RowsOf(docs, row);
    d :| d in docs && IsRowOf(row, d);
    QueryFieldsMember(db, reader, studyId, versions, available, ids, d);
    var id :| id in ids && d in QueryField(db, reader, studyId, versions, available, id);
    QueriedIsAsked(db, reader, studyId, q, available, id, d);
  }

  /** A reader none of whose permissions is for documents not published yet is given none of them that others made. */
  lemma UnpublishedIsOwn(db: Db, reader: Reader, studyId: string, q: VersionQuery, selected: Option<seq<string>>,
                         row: Row)
    requires forall role, p | role in reader.roles && p in role.dataPermissions :: !p.includeUnVersioned
    requires GetStudyData(db, reader, studyId, q, selected).Ok?
    requires row in GetStudyData(db, reader, studyId, q, selected).value && row.dataVersion == None
    ensures exists d :: d in db.data && IsRowOf(row, d) && d.life.createdUser == reader.requester
  {
    hide GetStudyData, VersionRead;
    var d := RowIsCovered(db, reader, studyId, q, selected, row);
  }
}
