/** What editing a field builds on, over whole runs of the field operations. */
module FieldHistory {
  import opened Sequences
  import opened Documents
  import opened StudyData
  import opened StudyHistory
  import opened DataReads
  import opened StudyCore

  // ----- an edit's base -----------------------------------------------------

  /** The attributes the edit does not give are the same. */
  predicate KeepsUngiven(edit: FieldEdit, before: FieldInfo, after: FieldInfo) {
    && (edit.fieldName.None? ==> after.fieldName == before.fieldName)
    && (edit.dataType.None? ==> after.dataType == before.dataType)
    && (edit.properties.None? ==> after.properties == before.properties)
  }

  /** An edit keeps the field's current attributes that it does not give exactly when the first stored live
      document agrees with the newest one on each of them. */
  lemma EditKeepsUngivenIff(fields: seq<FieldDoc>, studyId: string, fieldId: string, edit: FieldEdit, base: FieldDoc,
                            newest: FieldDoc, after: FieldInfo)
    requires OldestAlive(fields, studyId, fieldId, base) && FirstNewest(fields, studyId, fieldId, newest)
    requires IsMerged(edit, base.info, after)
    ensures KeepsUngiven(edit, newest.info, after) <==> KeepsUngiven(edit, newest.info, base.info)
  {
  }

  /** The document but for its version stamp. */
  predicate SameDocument(f: FieldDoc, g: FieldDoc) { g == f.(dataVersion := g.dataVersion) }

  lemma StepKeepsEditBase(db: Db, db': Db, studyId: string, fieldId: string, f: FieldDoc)
    requires Step(db, db') && OldestAlive(db.fields, studyId, fieldId, f)
    ensures exists g :: OldestAlive(db'.fields, studyId, fieldId, g) && SameDocument(f, g)
  {
    var i :| 0 <= i < |db.fields| && db.fields[i] == f && IsAlive(studyId, fieldId)(f)
      && forall j | 0 <= j < i && db.fields[j].studyId == studyId && db.fields[j].fieldId == fieldId ::
           db.fields[j].life.deletedTime != None;
    assert |db.fields| <= |db'.fields|;
    assert forall j | 0 <= j <= i :: SameDocument(db.fields[j], db'.fields[j]);
    hide Step;
    assert OldestAlive(db'.fields, studyId, fieldId, db'.fields[i]);
  }

  /** In every run all edits of a field start from one and the same document, its first stored live one: no edit
      builds on another edit. */
  lemma {:induction false} RunKeepsEditBase(dbs: seq<Db>, n: nat, studyId: string, fieldId: string, f: FieldDoc)
    returns (g: FieldDoc)
    requires Run(dbs) && n < |dbs| && OldestAlive(dbs[0].fields, studyId, fieldId, f)
    ensures OldestAlive(dbs[n].fields, studyId, fieldId, g) && SameDocument(f, g)
  {
    if n == 0 {
      g := f;
    } else {
      var h := RunKeepsEditBase(dbs, n - 1, studyId, fieldId, f);
      StepKeepsEditBase(dbs[n - 1], dbs[n], studyId, fieldId, h);
      hide Step;
      g :| OldestAlive(dbs[n].fields, studyId, fieldId, g) && SameDocument(h, g);
    }
  }

  /** Create, edit the name, edit the type: the new name is lost. */
  method NameEditIsLost(store: StudyStore, reader: Reader, studyId: string, fieldId: string, info: FieldInfo,
                        name: string, dataType: string, ids: nat -> string, clock: nat -> int) returns (last: FieldDoc)
    requires forall f | f in store.fields :: !IsField(studyId, fieldId)(f)
    requires HasRight(reader, fieldId, 2)
    modifies store`fields
    ensures |store.fields| == |old(store.fields)| + 3 && store.fields[|store.fields| - 1] == last
    ensures store.fields[|store.fields| - 2].info.fieldName == name
    ensures last.info.fieldName == info.fieldName && last.info.dataType == dataType
  {
    hide FirstNewest, HasRight, Appends, TombstonesHaveLive;
    var before := store.fields;
    var created := store.CreateField(reader, studyId, fieldId, info, true, ids(0), clock(0));
    FirstAliveIs(before, store.fields, studyId, fieldId);
    var renamed := store.EditField(reader, studyId, fieldId, FieldEdit(Some(name), None, None), true, ids(1), clock(1));
    FirstAliveIs(before, store.fields, studyId, fieldId);
    var edit := FieldEdit(None, Some(dataType), None);
    var retyped := store.EditField(reader, studyId, fieldId, edit, true, ids(2), clock(2));
    last := retyped.value;
  }

  lemma FirstAliveIs(before: seq<FieldDoc>, fields: seq<FieldDoc>, studyId: string, fieldId: string)
    requires before < fields && forall f | f in before :: !IsField(studyId, fieldId)(f)
    requires IsAlive(studyId, fieldId)(fields[|before|])
    ensures OldestAlive(fields, studyId, fieldId, fields[|before|])
    ensures forall f :: OldestAlive(fields, studyId, fieldId, f) <==> f == fields[|before|]
  {
    assert forall j | 0 <= j < |before| :: fields[j] == before[j] && before[j] in before;
    assert OldestAlive(fields, studyId, fieldId, fields[|before|]);
    assert fields[|before|] in fields;
  }

  // ----- editing a deleted field --------------------------------------------

  /** Where the newest document is a tombstone, an edit by a reader with the right and valid input succeeds
      exactly when a live document is stored, and one always is: the operations only bury live fields. */
  lemma DeletedFieldIsEditable(fields: seq<FieldDoc>, studyId: string, fieldId: string, tombstone: FieldDoc)
    requires TombstonesHaveLive(fields)
    requires FirstNewest(fields, studyId, fieldId, tombstone) && tombstone.life.deletedTime != None
    ensures exists f :: OldestAlive(fields, studyId, fieldId, f)
  {
    var i :| 0 <= i < |fields| && fields[i] == tombstone && IsField(studyId, fieldId)(tombstone);
    var k :| 0 <= k < |fields| && IsAlive(fields[i].studyId, fields[i].fieldId)(fields[k]);
    FilterMember(fields, IsAlive(studyId, fieldId), fields[k]);
    FirstOfFound(fields, studyId, fieldId);
    hide OldestAlive;
  }

  /** After such an edit, made later than the field's other documents, reads of unpublished fields find it again. */
  lemma EditRevives(db: Db, edited: FieldDoc, reader: Reader, versions: seq<Option<string>>,
                    selected: Option<seq<string>>)
    requires edited.life.deletedTime == None && FieldInScope(reader, edited.studyId, versions, selected, edited)
    requires forall f | f in db.fields && f.fieldId == edited.fieldId && f.studyId == edited.studyId ::
      f.life.createdTime < edited.life.createdTime
    requires DistinctTimes(Filter(db.fields, FieldMatch(reader, edited.studyId, versions, selected)),
                           FieldKey(), FieldTime())
    ensures edited in FieldsAt(db.(fields := db.fields + [edited]), reader, edited.studyId, versions, selected)
  {
    var after := db.(fields := db.fields + [edited]);
    var p := FieldMatch(reader, edited.studyId, versions, selected);
    var matched := Filter(db.fields, p);
    FilterConcat(db.fields, [edited], p);
    assert [edited][1..] == [] && p(edited);
    assert Filter(after.fields, p) == matched + [edited];
    forall i | 0 <= i < |matched|
      ensures matched[i] in db.fields && p(matched[i])
    {
      FilterMember(db.fields, p, matched[i]);
    }
    FieldsAreNewestAlive(after, reader, edited.studyId, versions, selected, edited);
    hide Filter, FieldsAt;
    assert edited in after.fields;
    assert forall g | g in after.fields :: g in db.fields || g == edited;
  }

  /** Create, delete, edit: the edit of the deleted field succeeds. */
  method DeletedFieldIsEdited(store: StudyStore, reader: Reader, studyId: string, fieldId: string, info: FieldInfo,
                              edit: FieldEdit, ids: nat -> string, clock: nat -> int)
    returns (r: Result<FieldDoc, Error>)
    requires forall f | f in store.fields :: !IsField(studyId, fieldId)(f)
    requires HasRight(reader, fieldId, 2) && HasRight(reader, fieldId, 1)
    modifies store`fields
    ensures |store.fields| == |old(store.fields)| + 3 && store.fields[|store.fields| - 2].life.deletedTime != None
    ensures r.Ok? && r.value == store.fields[|store.fields| - 1] && r.value.life.deletedTime == None
  {
    hide FirstNewest, HasRight, Appends, TombstonesHaveLive, IsMerged;
    var before := store.fields;
    var created := store.CreateField(reader, studyId, fieldId, info, true, ids(0), clock(0));
    OnlyOneIsNewest(before, created.value, studyId, fieldId);
    var deleted := store.DeleteField(reader, studyId, fieldId, ids(1), clock(1));
    FirstAliveIs(before, store.fields, studyId, fieldId);
    r := store.EditField(reader, studyId, fieldId, edit, true, ids(2), clock(2));
  }

  lemma OnlyOneIsNewest(before: seq<FieldDoc>, f: FieldDoc, studyId: string, fieldId: string)
    requires IsField(studyId, fieldId)(f) && forall g | g in before :: !IsField(studyId, fieldId)(g)
    ensures FirstNewest(before + [f], studyId, fieldId, f)
  {
    var all := before + [f];
    assert forall j | 0 <= j < |before| :: all[j] == before[j] && before[j] in before;
    assert all[|before|] == f;
  }
}
