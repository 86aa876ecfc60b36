/** What an upload stores and answers, said of the stored fields and the clips' own checks. */
module Uploads {
  import opened Sequences
  import opened Documents
  import opened StudyData
  import opened StudyHistory
  import opened StudyCore
  import opened DataReads

  /** The field of the clip as the upload finds it: live, the newest of its id at the default versions, and one the
      requester may find. */
  ghost predicate IsFieldOf(db: Db, reader: Reader, studyId: string, clip: DataInput, f: FieldDoc)
    requires studyId in db.studies
  {
    f.fieldId == clip.fieldId && FieldGiven(db, reader, studyId, Default, true, None, f)
  }

  lemma AvailableAre(db: Db, reader: Reader, studyId: string, u: Upload)
    requires studyId in db.studies && FieldTimesDistinct(db)
    requires u.available == ById(FieldsAt(db, reader, studyId, DataVersions(db.studies[studyId], Default), None))
    ensures forall id | id in u.available ::
              u.available[id].fieldId == id && FieldGiven(db, reader, studyId, Default, true, None, u.available[id])
    ensures forall f | FieldGiven(db, reader, studyId, Default, true, None, f) ::
              f.fieldId in u.available && u.available[f.fieldId] == f
  {
    ReadLooks(db, reader, studyId, Default, None);
    forall f | FieldGiven(db, reader, studyId, Default, true, None, f)
      ensures f.fieldId in u.available && u.available[f.fieldId] == f
    {
      assert FieldGiven(db, reader, studyId, Default, true, None, u.available[f.fieldId]);
      OneFieldGiven(db, reader, studyId, Default, f, u.available[f.fieldId]);
    }
  }

  /** The answer the parser decides. */
  function Parsing(p: Parse): Option<Error> {
    match p case Parsed(_) => None case Refused => Some(Malformed) case Throws => Some(Thrown)
  }

  lemma AnswerFrom(u: Upload, clip: DataInput)
    ensures u.Answer(clip) == Some(NoPermission) <==> !u.allowed(clip)
    ensures u.Answer(clip) == Some(NonExistent) <==> u.allowed(clip) && clip.fieldId !in u.available
    ensures u.allowed(clip) && clip.fieldId in u.available ==>
              u.Answer(clip) == Parsing(u.parse(u.available[clip.fieldId].info, clip))
  {
  }

  /** The answer to a clip: no permission, no such field, what the parser says, or None where it is stored. */
  lemma AnswerIs(db: Db, reader: Reader, studyId: string, allowed: DataInput -> bool,
                 parse: (FieldInfo, DataInput) -> Parse, ids: nat -> string, clock: nat -> int, clip: DataInput)
    requires studyId in db.studies && FieldTimesDistinct(db)
    ensures var u := UploadFor(db, reader, studyId, allowed, parse, ids, clock);
      && u.studyId == studyId && u.requester == reader.requester && u.allowed == allowed && u.parse == parse
      && u.ids == ids && u.clock == clock
    ensures var answer := UploadFor(db, reader, studyId, allowed, parse, ids, clock).Answer(clip);
      && (answer == Some(NoPermission) <==> !allowed(clip))
      && (answer == Some(NonExistent) <==>
            allowed(clip) && forall f :: !IsFieldOf(db, reader, studyId, clip, f))
      && forall f | allowed(clip) && IsFieldOf(db, reader, studyId, clip, f) ::
           answer == Parsing(parse(f.info, clip))
  {
    var u := UploadFor(db, reader, studyId, allowed, parse, ids, clock);
    AvailableAre(db, reader, studyId, u);
    AnswerFrom(u, clip);
    hide FieldGiven, FieldsAt, ById, DataVersions, Upload.Answer, Parsing;
    if clip.fieldId in u.available { assert IsFieldOf(db, reader, studyId, clip, u.available[clip.fieldId]); }
  }

  /** The number of the first n clips that are stored. */
  function StoredBefore(u: Upload, clips: seq<DataInput>, n: nat): nat
    requires n <= |clips|
  {
    if n == 0 then 0 else StoredBefore(u, clips, n - 1) + if u.Answer(clips[n - 1]) == None then 1 else 0
  }

  /** The document of the k-th clip. */
  ghost predicate IsDocOf(u: Upload, clips: seq<DataInput>, k: nat, d: DataDoc)
    requires k < |clips| && clips[k].fieldId in u.available
  {
    && d.id == u.ids(k) && d.studyId == u.studyId && d.fieldId == clips[k].fieldId && d.dataVersion == None
    && u.parse(u.available[clips[k].fieldId].info, clips[k]) == Parsed(d.value) && d.properties == clips[k].properties
    && d.life.createdTime == u.clock(k) && d.life.createdUser == u.requester && d.life.deletedTime == None
  }

  /** Of the first n clips exactly those are stored whose answer is None, in order, each as one unpublished document
      with its parsed value. */
  lemma {:induction false} StoredAre(u: Upload, clips: seq<DataInput>, n: nat)
    requires n <= |clips|
    ensures |u.Stored(clips, n)| == StoredBefore(u, clips, n)
    ensures forall k: nat | k < n && u.Answer(clips[k]) == None ::
              && clips[k].fieldId in u.available && StoredBefore(u, clips, k) < |u.Stored(clips, n)|
              && IsDocOf(u, clips, k, u.Stored(clips, n)[StoredBefore(u, clips, k)])
  {
    if n > 0 { StoredAre(u, clips, n - 1); }
  }

  /** Where the batches are never full nothing is sent off before the end, and where every document fills them each is
      sent off at once. */
  lemma SentOffWhenFull(docs: seq<DataDoc>, full: nat -> bool)
    ensures (forall n :: !full(n)) ==> SentOff(docs, full) == []
    ensures (forall n :: full(n)) ==> SentOff(docs, full) == docs
  {
    WaitingWhenFull(full, |docs|);
  }

  lemma {:induction false} WaitingWhenFull(full: nat -> bool, n: nat)
    ensures (forall m :: !full(m)) ==> Waiting(full, n) == n
    ensures (forall m :: full(m)) ==> Waiting(full, n) == 0
  {
    if n > 0 { WaitingWhenFull(full, n - 1); }
  }
}
