/** Which rights the reads of fields and data depend on. A permission carries a bit for reading; it is asked for when
    the readable fields are looked up, and nowhere else. */
module ReadRights {
  import opened Sequences
  import opened Documents
  import opened Json
  import opened StudyData

  // ----- fields -------------------------------------------------------------

  /** A read of fields that names them asks for no right on any of them. */
  lemma SelectedFieldsNeedNoRight(db: Db, reader: Reader, other: Reader, studyId: string, q: VersionQuery,
                                  ids: seq<string>)
    requires reader.roles != [] && other.roles != []
    ensures GetStudyFields(db, reader, studyId, q, Some(ids)) == GetStudyFields(db, other, studyId, q, Some(ids))
  {
    if studyId in db.studies {
      var versions := FieldVersions(db.studies[studyId], q);
      SameFilter(db.fields, FieldMatch(reader, studyId, versions, Some(ids)),
                 FieldMatch(other, studyId, versions, Some(ids)));
    }
  }

  lemma {:induction false} SameFilter<T>(s: seq<T>, p: T -> bool, q: T -> bool)
    requires forall x | x in s :: p(x) == q(x)
    ensures Filter(s, p) == Filter(s, q)
  {
    if s != [] {
      SameFilter(s[1..], p, q);
      assert s[0] in s;
    }
  }

  // ----- data ---------------------------------------------------------------

  /** The same but for the bits. */
  ghost predicate SameButBits(p: Permission, q: Permission) {
    p.fields == q.fields && p.dataProperties == q.dataProperties && p.includeUnVersioned == q.includeUnVersioned
  }

  ghost predicate SameRoleButBits(a: Role, b: Role) {
    && |a.dataPermissions| == |b.dataPermissions|
    && forall i | 0 <= i < |a.dataPermissions| :: SameButBits(a.dataPermissions[i], b.dataPermissions[i])
  }

  ghost predicate SameReaderButBits(r: Reader, t: Reader) {
    && r.requester == t.requester && r.matches == t.matches && |r.roles| == |t.roles|
    && forall i | 0 <= i < |r.roles| :: SameRoleButBits(r.roles[i], t.roles[i])
  }

  lemma SameAdmission(r: Reader, t: Reader, d: DataDoc)
    requires SameReaderButBits(r, t) && Admits(r, d)
    ensures Admits(t, d)
  {
    hide MatchesAny;
    if d.life.createdUser != r.requester {
      var role, p :| role in r.roles && p in role.dataPermissions && PermissionAdmits(r, p, d);
      var i :| 0 <= i < |r.roles| && r.roles[i] == role;
      var j :| 0 <= j < |role.dataPermissions| && role.dataPermissions[j] == p;
      var q := t.roles[i].dataPermissions[j];
      assert SameRoleButBits(r.roles[i], t.roles[i]) && SameButBits(p, q);
      SamePermission(r, t, p, q, d);
    }
  }

  lemma SamePermission(r: Reader, t: Reader, p: Permission, q: Permission, d: DataDoc)
    requires r.matches == t.matches && SameButBits(p, q) && PermissionAdmits(r, p, d)
    ensures PermissionAdmits(t, q, d)
  {
  }

  lemma SameEmptyRole(r: Reader, t: Reader)
    requires SameReaderButBits(r, t) && HasEmptyRole(r)
    ensures HasEmptyRole(t)
  {
    var role :| role in r.roles && forall p | p in role.dataPermissions :: p.fields == [];
    var i :| 0 <= i < |r.roles| && r.roles[i] == role;
    var other := t.roles[i];
    forall q | q in other.dataPermissions ensures q.fields == [] {
      var j :| 0 <= j < |other.dataPermissions| && other.dataPermissions[j] == q;
      assert SameButBits(role.dataPermissions[j], q);
    }
  }

  lemma SameReaderBack(r: Reader, t: Reader)
    requires SameReaderButBits(r, t)
    ensures SameReaderButBits(t, r)
  {
  }

  lemma {:induction false} SameRows(db: Db, r: Reader, t: Reader, studyId: string, versions: seq<Option<string>>,
                                    available: map<string, FieldDoc>, ids: seq<string>)
    requires SameReaderButBits(r, t)
    ensures QueryFields(db, r, studyId, versions, available, ids)
         == QueryFields(db, t, studyId, versions, available, ids)
  {
    hide Admits, LatestAlive, SameReaderButBits;
    if ids != [] {
      SameRows(db, r, t, studyId, versions, available, ids[1..]);
      forall d | d in db.data ensures Admits(r, d) == Admits(t, d) {
        SameReaderBack(r, t);
        if Admits(r, d) { SameAdmission(r, t, d); }
        if Admits(t, d) { SameAdmission(t, r, d); }
      }
      SameFilter(db.data, DataMatch(r, studyId, versions, ids[0]), DataMatch(t, studyId, versions, ids[0]));
    }
  }

  /** A read of data uses the bits to look up the readable fields only: two readers whose permissions differ in nothing
      else and who find the same fields are given the same rows. */
  lemma BitsMatterForFieldsOnly(db: Db, r: Reader, t: Reader, studyId: string, q: VersionQuery,
                                selected: Option<seq<string>>)
    requires SameReaderButBits(r, t)
    requires studyId in db.studies ==>
               var versions := DataVersions(db.studies[studyId], q);
               FieldsAt(db, r, studyId, versions, None) == FieldsAt(db, t, studyId, versions, None)
    ensures GetStudyData(db, r, studyId, q, selected) == GetStudyData(db, t, studyId, q, selected)
  {
    SameReaderBack(r, t);
    if HasEmptyRole(r) { SameEmptyRole(r, t); }
    if HasEmptyRole(t) { SameEmptyRole(t, r); }
    if studyId in db.studies {
      var versions := DataVersions(db.studies[studyId], q);
      var found := FieldsAt(db, r, studyId, versions, None);
      var ids := match selected case Some(ids) => ids case None => Map(found, FieldKey());
      SameRows(db, r, t, studyId, versions, ById(found), ids);
      hide HasEmptyRole, FieldsAt, QueryFields, SameReaderButBits, DataVersions, ById;
    }
  }

  // ----- a row that no permission to read covers ----------------------------

  /** The row's own right to be read: the requester made it, or a permission with the bit for reading covers it. */
  ghost predicate CoveredToRead(reader: Reader, d: DataDoc) {
    || d.life.createdUser == reader.requester
    || exists role | role in reader.roles ::
         exists p | p in role.dataPermissions :: HasBit(p, 4) && PermissionAdmits(reader, p, d)
  }

  lemma OneMatches<T>(x: T, p: T -> bool)
    ensures Filter([x], p) == (if p(x) then [x] else []) && Filter([], p) == []
  {
    assert [x][1..] == [];
  }

  lemma OneLatest<T, K>(x: T, key: T -> K, time: T -> int)
    ensures LatestPer([x], key, time) == [x] && LatestPer([], key, time) == []
  {
    assert [x][1..] == [] && [x][..0] == [];
    assert StableSort([x], NewerFirst(time)) == [x];
    assert FirstPer([], key) == [] && !HasKey([], key, key(x));
  }

  /** A collection with one published live field and one published live document of it. */
  predicate OneOfEach(db: Db, studyId: string, v: string, f: FieldDoc, d: DataDoc) {
    && studyId in db.studies && db.fields == [f] && db.data == [d]
    && f.studyId == studyId && d.studyId == studyId && f.fieldId == d.fieldId
    && f.dataVersion == Some(v) && d.dataVersion == Some(v)
    && f.life.deletedTime == None && d.life.deletedTime == None
  }

  lemma OneFieldFound(db: Db, studyId: string, v: string, f: FieldDoc, d: DataDoc, reader: Reader)
    requires OneOfEach(db, studyId, v, f, d) && MayReadField(reader, f.fieldId)
    ensures FieldsAt(db, reader, studyId, [Some(v)], None) == [f] && ById([f]) == map[f.fieldId := f]
    ensures reader.roles != []
  {
    OneMatches(f, FieldMatch(reader, studyId, [Some(v)], None));
    OneLatest(f, FieldKey(), FieldTime());
    OneMatches(f, FieldAlive());
    hide LatestPer, Filter;
    assert [f][..0] == [];
  }

  lemma OneRowQueried(db: Db, studyId: string, v: string, f: FieldDoc, d: DataDoc, reader: Reader)
    requires OneOfEach(db, studyId, v, f, d)
    ensures QueryFields(db, reader, studyId, [Some(v)], map[f.fieldId := f], [f.fieldId])
         == if Admits(reader, d) then [d] else []
  {
    OneMatches(d, DataMatch(reader, studyId, [Some(v)], d.fieldId));
    OneLatest(d, PropertyTuple(f.info.properties), DataTime());
    OneMatches(d, DataAlive());
    hide LatestPer, Filter, Admits;
    assert [f.fieldId][1..] == [];
  }

  lemma OneMapped<T, U>(x: T, f: T -> U)
    ensures Map([x], f) == [f(x)] && Map([], f) == []
  {
  }

  /** Of such a collection a reader of the field is given the document exactly if some permission admits it, whatever
      the permission is for. */
  lemma OneRowIsReadIff(db: Db, studyId: string, v: string, f: FieldDoc, d: DataDoc, reader: Reader)
    requires OneOfEach(db, studyId, v, f, d) && MayReadField(reader, f.fieldId) && !HasEmptyRole(reader)
    ensures GetStudyData(db, reader, studyId, One(v), None) == Ok(if Admits(reader, d) then [Project()(d)] else [])
  {
    OneFieldFound(db, studyId, v, f, d, reader);
    OneRowQueried(db, studyId, v, f, d, reader);
    OneMapped(f, FieldKey());
    OneMapped(d, Project());
    assert studyId in db.studies;
    hide Admits, MayReadField, HasEmptyRole, FieldsAt, QueryFields, ById, Map, OneOfEach, Project, FieldKey;
    assert DataVersions(db.studies[studyId], One(v)) == [Some(v)];
  }

  lemma OnlyWriting(reader: Reader, d: DataDoc, reading: Permission, writing: Permission)
    requires reader.roles == [Role([reading, writing], false)] && d.life.createdUser != reader.requester
    requires !HasBit(writing, 4) && PermissionAdmits(reader, writing, d) && !PermissionAdmits(reader, reading, d)
    ensures !CoveredToRead(reader, d) && Admits(reader, d) && !HasEmptyRole(reader)
  {
    var role := Role([reading, writing], false);
    assert role in reader.roles && writing in role.dataPermissions;
    hide MatchesAny, HasBit;
  }

  lemma NotAdmitted(reader: Reader, d: DataDoc, reading: Permission)
    requires reader.roles == [Role([reading], false)] && d.life.createdUser != reader.requester
    requires reading.fields != [] && !PermissionAdmits(reader, reading, d)
    ensures !Admits(reader, d) && !HasEmptyRole(reader)
  {
    assert reading in reader.roles[0].dataPermissions;
    hide PermissionAdmits;
  }

  lemma FirstGrantsField(reader: Reader, fieldId: string, reading: Permission, rest: seq<Permission>)
    requires reader.roles == [Role([reading] + rest, false)]
    requires HasBit(reading, 4) && MatchesAny(reader, reading.fields, fieldId)
    ensures MayReadField(reader, fieldId)
  {
    assert reader.roles[0] in reader.roles && reading in reader.roles[0].dataPermissions;
    hide HasBit, MatchesAny;
  }

  /** The field may be read by the first permission, which does not cover the row; the second one covers it and is for
      writing only. The row is given, and with the first permission alone it is not. */
  lemma UncoveredRowIsRead(db: Db, studyId: string, v: string, f: FieldDoc, d: DataDoc, reader: Reader,
                           reading: Permission, writing: Permission)
    requires OneOfEach(db, studyId, v, f, d) && reader.roles == [Role([reading, writing], false)]
    requires HasBit(reading, 4) && !HasBit(writing, 4) && MatchesAny(reader, reading.fields, f.fieldId)
    requires PermissionAdmits(reader, writing, d) && !PermissionAdmits(reader, reading, d)
    requires d.life.createdUser != reader.requester
    ensures !CoveredToRead(reader, d) && GetStudyData(db, reader, studyId, One(v), None) == Ok([Project()(d)])
    ensures var less := reader.(roles := [Role([reading], false)]);
            GetStudyData(db, less, studyId, One(v), None) == Ok([])
  {
    var less := reader.(roles := [Role([reading], false)]);
    if PermissionAdmits(less, reading, d) { SamePermission(less, reader, reading, reading, d); }
    assert [reading, writing] == [reading] + [writing] && [reading] == [reading] + [];
    assert MatchesAny(less, reading.fields, f.fieldId) && reading.fields != [];
    hide *;
    FirstGrantsField(reader, f.fieldId, reading, [writing]);
    FirstGrantsField(less, f.fieldId, reading, []);
    OnlyWriting(reader, d, reading, writing);
    NotAdmitted(less, d, reading);
    OneRowIsReadIff(db, studyId, v, f, d, reader);
    OneRowIsReadIff(db, studyId, v, f, d, less);
  }
}
