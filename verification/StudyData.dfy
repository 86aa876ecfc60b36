/** The versioned, append-only collections of a study (`dataCore.ts`, `studyCore.ts`) as values:
    documents, the reads over them, and the steps the operations take. */
module StudyData {
  import opened Sequences
  import opened Documents
  import opened Json

  // ----- documents ----------------------------------------------------------

  datatype Life = Life(createdTime: int, createdUser: string, deletedTime: Option<int>)

  datatype Property = Property(name: string, required: bool)

  datatype FieldInfo = FieldInfo(fieldName: string, dataType: string, properties: seq<Property>)

  datatype FieldDoc = FieldDoc(id: string, studyId: string, fieldId: string, dataVersion: Option<string>,
                               info: FieldInfo, life: Life)

  datatype DataDoc = DataDoc(id: string, studyId: string, fieldId: string, dataVersion: Option<string>,
                             value: Value, properties: map<string, Value>, life: Life)

  datatype Version = Version(id: string, version: string, tag: string)

  datatype Study = Study(dataVersions: seq<Version>, currentDataVersion: int)

  datatype Db = Db(studies: map<string, Study>, fields: seq<FieldDoc>, data: seq<DataDoc>)

  // ----- readers ------------------------------------------------------------

  /** `permission` holds three bits: 4 read, 2 write, 1 delete. */
  datatype Permission = Permission(fields: seq<string>, dataProperties: map<string, seq<string>>,
                                   includeUnVersioned: bool, permission: nat)

  datatype Role = Role(dataPermissions: seq<Permission>, isManager: bool)

  /** A requester, the roles found for it, and the regular-expression engine. */
  datatype Reader = Reader(requester: string, roles: seq<Role>, matches: (string, string) -> bool)

  predicate MatchesAny(reader: Reader, patterns: seq<string>, text: string) {
    exists re | re in patterns :: reader.matches(re, text)
  }

  predicate HasBit(p: Permission, bit: nat)
    requires bit > 0
  {
    p.permission / bit % 2 == 1
  }

  /** Some role grants the given right on the field. */
  predicate MayTouchField(reader: Reader, fieldId: string, bit: nat)
    requires bit > 0
  {
    exists role | role in reader.roles ::
      exists p | p in role.dataPermissions :: HasBit(p, bit) && MatchesAny(reader, p.fields, fieldId)
  }

  predicate PermissionAdmits(reader: Reader, p: Permission, d: DataDoc) {
    && p.fields != []
    && MatchesAny(reader, p.fields, d.fieldId)
    && (forall k | k in p.dataProperties :: k in d.properties && d.properties[k].Str?
                                         && MatchesAny(reader, p.dataProperties[k], d.properties[k].s))
    && (p.includeUnVersioned || d.dataVersion.Some?)
  }

  predicate Admits(reader: Reader, d: DataDoc) {
    || d.life.createdUser == reader.requester
    || exists role | role in reader.roles :: exists p | p in role.dataPermissions :: PermissionAdmits(reader, p, d)
  }

  /** A role without any usable permission empties the whole read. */
  predicate HasEmptyRole(reader: Reader) {
    exists role | role in reader.roles :: forall p | p in role.dataPermissions :: p.fields == []
  }

  // ----- which versions a read covers ---------------------------------------

  datatype VersionQuery = Default | Unversioned | One(version: string) | Many(versions: seq<Option<string>>)

  function VersionId(): Version -> Option<string> { (v: Version) => Some(v.id) }

  function PublishedUpToCurrent(study: Study): seq<Option<string>> {
    var n := study.currentDataVersion + 1;
    Map(if n <= 0 then [] else if n <= |study.dataVersions| then study.dataVersions[..n] else study.dataVersions,
        VersionId())
  }

  /** The versions `getStudyData` reads: by default everything up to the current version, and
      the documents not published yet. */
  function DataVersions(study: Study, q: VersionQuery): seq<Option<string>> {
    match q
    case Unversioned => [None]
    case One(v) => [Some(v)]
    case Many(vs) => vs
    case Default => PublishedUpToCurrent(study) + [None]
  }

  /** The versions `getStudyFields` reads: unlike data, unpublished fields are not in the default. */
  function FieldVersions(study: Study, q: VersionQuery): seq<Option<string>> {
    if q == Default then PublishedUpToCurrent(study) else DataVersions(study, q)
  }

  // ----- reading fields -----------------------------------------------------

  predicate MayReadField(reader: Reader, fieldId: string) { MayTouchField(reader, fieldId, 4) }

  function FieldMatch(reader: Reader, studyId: string, versions: seq<Option<string>>,
                      selected: Option<seq<string>>): FieldDoc -> bool
  {
    (f: FieldDoc) => f.studyId == studyId && f.dataVersion in versions
                  && match selected case Some(ids) => f.fieldId in ids case None => MayReadField(reader, f.fieldId)
  }

  function FieldKey(): FieldDoc -> string { (f: FieldDoc) => f.fieldId }

  function FieldTime(): FieldDoc -> int { (f: FieldDoc) => f.life.createdTime }

  function FieldAlive(): FieldDoc -> bool { (f: FieldDoc) => f.life.deletedTime == None }

  function FieldsAt(db: Db, reader: Reader, studyId: string, versions: seq<Option<string>>,
                    selected: Option<seq<string>>): seq<FieldDoc>
  {
    var matched := Filter(db.fields, FieldMatch(reader, studyId, versions, selected));
    Filter(LatestPer(matched, FieldKey(), FieldTime()), FieldAlive())
  }

  datatype Error = NoPermission | NonExistent | Malformed | NothingToUpdate | Thrown

  function GetStudyFields(db: Db, reader: Reader, studyId: string, q: VersionQuery,
                          selected: Option<seq<string>>): Result<seq<FieldDoc>, Error>
  {
    if reader.roles == [] then Err(NoPermission)
    else if studyId !in db.studies then Err(NonExistent)
    else Ok(FieldsAt(db, reader, studyId, FieldVersions(db.studies[studyId], q), selected))
  }

  // ----- reading data -------------------------------------------------------

  /** What is left of a document after the projection. */
  datatype Row = Row(studyId: string, fieldId: string, dataVersion: Option<string>, value: Value,
                     properties: map<string, Value>)

  function Project(): DataDoc -> Row {
    (d: DataDoc) => Row(d.studyId, d.fieldId, d.dataVersion, d.value, d.properties)
  }

  function DataMatch(reader: Reader, studyId: string, versions: seq<Option<string>>, fieldId: string): DataDoc -> bool {
    (d: DataDoc) => d.studyId == studyId && d.dataVersion in versions && d.fieldId == fieldId && Admits(reader, d)
  }

  predicate Declares(props: seq<Property>, name: string) {
    exists p | p in props :: p.name == name
  }

  /** The grouping key: the declared properties the document has. */
  function PropertyTuple(props: seq<Property>): DataDoc -> map<string, Value> {
    (d: DataDoc) => map name | name in d.properties && Declares(props, name) :: d.properties[name]
  }

  function DataTime(): DataDoc -> int { (d: DataDoc) => d.life.createdTime }

  function DataAlive(): DataDoc -> bool { (d: DataDoc) => d.life.deletedTime == None }

  /** The latest live document of every property tuple. */
  function LatestAlive(docs: seq<DataDoc>, props: seq<Property>): seq<DataDoc> {
    Filter(LatestPer(docs, PropertyTuple(props), DataTime()), DataAlive())
  }

  /** The fields by id, as the code's object of available fields. */
  function ById(fields: seq<FieldDoc>): map<string, FieldDoc> {
    if fields == [] then map[]
    else ById(fields[..|fields| - 1])[fields[|fields| - 1].fieldId := fields[|fields| - 1]]
  }

  /** One field's documents the reader may see, before the projection; nothing for a field the
      reader cannot find at these versions. */
  function QueryField(db: Db, reader: Reader, studyId: string, versions: seq<Option<string>>,
                      available: map<string, FieldDoc>, fieldId: string): seq<DataDoc>
  {
    if fieldId !in available then []
    else LatestAlive(Filter(db.data, DataMatch(reader, studyId, versions, fieldId)),
                     available[fieldId].info.properties)
  }

  function QueryFields(db: Db, reader: Reader, studyId: string, versions: seq<Option<string>>,
                       available: map<string, FieldDoc>, fieldIds: seq<string>): seq<DataDoc>
  {
    if fieldIds == [] then []
    else
      var first := QueryField(db, reader, studyId, versions, available, fieldIds[0]);
      first + QueryFields(db, reader, studyId, versions, available, fieldIds[1..])
  }

  function DataByRoles(db: Db, reader: Reader, studyId: string, versions: seq<Option<string>>,
                       fieldIds: seq<string>): seq<Row>
  {
    if HasEmptyRole(reader) then []
    else
      var available := ById(FieldsAt(db, reader, studyId, versions, None));
      Map(QueryFields(db, reader, studyId, versions, available, fieldIds), Project())
  }

  function GetStudyData(db: Db, reader: Reader, studyId: string, q: VersionQuery,
                        selected: Option<seq<string>>): Result<seq<Row>, Error>
  {
    if reader.roles == [] then Err(NoPermission)
    else if studyId !in db.studies then Err(NonExistent)
    else
      var versions := DataVersions(db.studies[studyId], q);
      var fieldIds := match selected
        case Some(ids) => ids
        case None => Map(FieldsAt(db, reader, studyId, versions, None), FieldKey());
      Ok(DataByRoles(db, reader, studyId, versions, fieldIds))
  }

  // ----- steps --------------------------------------------------------------

  /** Publishing stamps every unpublished document of the study and appends the version. */
  function StampField(studyId: string, v: string): FieldDoc -> FieldDoc {
    (f: FieldDoc) => if f.studyId == studyId && f.dataVersion == None then f.(dataVersion := Some(v)) else f
  }

  function StampData(studyId: string, v: string): DataDoc -> DataDoc {
    (d: DataDoc) => if d.studyId == studyId && d.dataVersion == None then d.(dataVersion := Some(v)) else d
  }

  function Publish(db: Db, studyId: string, v: Version): Db
    requires studyId in db.studies
  {
    var study := db.studies[studyId];
    Db(db.studies[studyId := Study(study.dataVersions + [v], study.currentDataVersion + 1)],
       Map(db.fields, StampField(studyId, v.id)),
       Map(db.data, StampData(studyId, v.id)))
  }

  /** `v` names no version yet, as a new uuid does not. */
  ghost predicate FreshVersion(db: Db, v: string) {
    && (forall id | id in db.studies :: forall w | w in db.studies[id].dataVersions :: w.id != v)
    && (forall f | f in db.fields :: f.dataVersion != Some(v))
    && (forall d | d in db.data :: d.dataVersion != Some(v))
  }

  /** Uploads, deletions and field edits: documents are added at the end, all unpublished. */
  ghost predicate Appends(db: Db, db': Db) {
    && db'.studies == db.studies
    && db.fields <= db'.fields && (forall i | |db.fields| <= i < |db'.fields| :: db'.fields[i].dataVersion == None)
    && db.data <= db'.data && (forall i | |db.data| <= i < |db'.data| :: db'.data[i].dataVersion == None)
  }

  ghost predicate Publishes(db: Db, db': Db, studyId: string, v: Version) {
    studyId in db.studies && FreshVersion(db, v.id) && db' == Publish(db, studyId, v)
  }

  ghost predicate SelectsVersion(db: Db, db': Db, studyId: string, index: int) {
    && studyId in db.studies && 0 <= index < |db.studies[studyId].dataVersions|
    && db' == db.(studies := db.studies[studyId := db.studies[studyId].(currentDataVersion := index)])
  }

  ghost predicate OpensStudy(db: Db, db': Db, studyId: string) {
    studyId !in db.studies && db' == db.(studies := db.studies[studyId := Study([], -1)])
  }

  ghost predicate Step(db: Db, db': Db) {
    || Appends(db, db')
    || (exists studyId, v :: Publishes(db, db', studyId, v))
    || (exists studyId, index :: SelectsVersion(db, db', studyId, index))
    || (exists studyId :: OpensStudy(db, db', studyId))
  }

  /** A run is a sequence of states, each one step after the one before. */
  ghost predicate Run(dbs: seq<Db>) {
    forall i | 0 <= i < |dbs| - 1 :: Step(dbs[i], dbs[i + 1])
  }
}
