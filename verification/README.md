# Verification of the data, drive, job and instance cores

This project models the parts of the repository that carry state or arithmetic worth proving, and proves what they
promise over all inputs and all runs.

- **Rank statistic** (`RankSums`, `MannWhitney`, `Splits`): the Mann-Whitney U of the analysis views. The in-place sort,
  the nested loops that average tied ranks and the loop that adds up ranks and ties are methods on objects; the closed
  form is proved to be a count of pairs, and its variance that of U over all ways to mix two samples. Values are reals,
  ranks are compared as doubled integers, `None` is NaN.
- **Versioned study data** (`StudyData`, `StudyHistory`, `StudyCore`, `DataReads`, `Uploads`, `FieldHistory`, `Publication`,
  `ReadRights`): collections are sequences of documents in insertion order. The class `StudyStore` has the writers; reads
  are functions; runs are sequences of states. `DataReads` and `Uploads` say what reads give and uploads store by the
  fields of documents and permissions; `FieldHistory` is about what field edits build on, `Publication` about what
  publishing does to the default view, `ReadRights` about the rights a read asks for.
- **Transformation pipeline** (`Json`, `Documents`, `Grouping`, `GroupKeys`, `GroupTexts`, `Transformation`,
  `KeyRules`, `StageResults`, `RoundTrips`, `VersioningRead`, `TransformationHeap`, `Aggregation`): every stage once on
  clips as values and once on clip objects that AFFINE changes in place, proved equal, undefined items included;
  `KeyRules` and `StageResults` say key by key what the stages give; `Aggregation` follows what pipelines do to objects
  they share; `Normalize` is the canonical form behind cache keys.
- **Drive tree** (`Drive`, `DriveHistory`, `DriveCalls`, `DriveCore`, `DriveCopy`, `CopyCalls`, `DriveMove`): the collection
  is a map by id; the class `DriveStore` has the operations, `DriveCalls` and `CopyCalls` say what they answer and leave by
  the nodes' fields, and the invariant ties `parent`, `children` and `path` together.
- **Jobs** (`Scheduling`, `Poller`): one poll as a function, the poller and the dispatcher as classes.
- **Instances** (`Instances`, `InstanceStore`): calls, executor jobs and monitor passes as steps on status, jobs and the
  commands given to LXD, whose answers are inputs.
- **Log throttling** (`LogThrottler`): a class whose records and log are those of its history.
- `Sequences` holds sums, stable sorting and sequences without repetition.

The clock, new uuids, the regular-expression engine, uploads, validation and LXD are parameters. The stable sort is the
one of `Array.prototype.sort` and of the database's `$sort` on different keys.

Where the code and its documentation differ, the model follows the code:

- The tie sum of the rank statistic leaves out the group of the greatest value (`MannWhitney.TieSumCompleteIff`).
- Publishing while an older version is current hides unpublished data from the default view and brings in the next
  version, tombstones of fields included (`Publication.ViewBehind`, `Publication.PublishKeepsScopeIff`).
- `createDataVersion` stores the version even when it then throws that there is nothing to update, which is when nothing
  of the study was unpublished (`StudyCore.StudyStore.CreateDataVersion`).
- A field edit starts from the first stored live document, so edits do not add up, and a deleted field can be edited
  (`FieldHistory.EditKeepsUngivenIff`, `FieldHistory.DeletedFieldIsEditable`).
- Group keys joined with bars can collide (`GroupKeys.UnambiguousIff`), and so do a value and the string that spells it
  (`GroupTexts.SameGroupIffAlike`).
- AFFINE changes its input; the pipelines in the comment at the end of `transformationCore.ts` apply it to clips that a
  later pipeline reads (`Aggregation.RunKeepsInputIff`, `Aggregation.AggregateFilterThenGroup`).
- The rows a data read hands to the aggregation have no life times, which the versioning pipeline needs: it is left with
  undefined items and throws at them (`VersioningRead.RowsLeaveUndefined`, `VersioningRead.ProjectedRowsFailIff`).
- With keepFlattened FLATTEN keeps the clip's own values on conflicts, where its comment says those of the flattened
  object (`VersioningRead.FlattenFlagIff`).
- GROUP by one key throws where the text of a value is the name of something every object inherits
  (`VersioningRead.GroupableIff`).
- Permissions carry a bit for reading, which a data read never tests, and a read of named fields tests no right at all
  (`ReadRights.BitsMatterForFieldsOnly`, `ReadRights.SelectedFieldsNeedNoRight`).
- A protected folder is deleted with an unprotected folder above it (`DriveHistory.ProtectedSurviveIff`).
- Deletion of a drive checks no right of the requester: any user who is logged in deletes any node that is neither
  protected nor a root (`DriveHistory.DeleteMarksPath`).
- Moving a node leaves it in its old parent's list, and below it the old paths (`DriveMove.MoveBreaksTree`,
  `DriveMove.PathsFitIff`).
- Users a folder is shared with for writing can create folders in it but cannot upload.
- After a deletion the parent keeps the id in its list, so a copy of the parent has an undefined child
  (`DriveCopy.CopyAfterDeleteIsNot`); a copied file points to an object without a file record, so a copy of the copy
  leaves the file out (`DriveCopy.CopyOfCopyHasNoFile`).
- The target of a copy does not list it, so deleting or sharing the target misses the copy (`DriveCopy.CopyIsNotFound`).
- Instance names are not kept apart, and LXD knows instances by their names alone (`Instances.NamesakeIsDeleted`).
- A deletion of an instance that LXD did not do is not tried again as a job, so its record stays
  (`Instances.FailedDeletionStays`).
- A periodic job runs before its next execution time when every job whose time has come is outranked, in particular
  when there is none (`Scheduling.RunsEarlyIff`), and a one-off job whose action returns a failure is never retried
  (`Scheduling.ReturningJobRunsOnce`).
- A job type registered again keeps the handler made before.

## Model

| member | source | states |
|---|---|---|
| MannWhitney.Standard | packages/itmat-ui-react/src/utils/tools.ts:52-64 | after the in-place sort the same entries are in ascending order and numbered 1, 2, ... n |
| MannWhitney.Fractional | packages/itmat-ui-react/src/utils/tools.ts:70-88 | after the nested loops every entry has the rank "number of smaller values + half of (number of equal values + 1)", and the array holds the same entries in ascending order |
| MannWhitney.Rank | packages/itmat-ui-react/src/utils/tools.ts:89-107 | the pooled array holds exactly the values of x marked x and those of y marked y, ascending, with fractional ranks |
| MannWhitney.SumRanksAndTies | packages/itmat-ui-react/src/utils/tools.ts:110-134 | the loop adds up the ranks of each sample, and its t is the sum of g*g*g - g over all tie groups but the last one |
| MannWhitney.ComputeStatistic | packages/itmat-ui-react/src/utils/tools.ts:110-146 | the whole statistic equals a pair count: uy is the pairs with x greater plus half of the draws, ux the same with x smaller, big and small their maximum and minimum, and the correction factor that of the tie groups below the greatest value |
| RankSums.RankSumIsPairCount | packages/itmat-ui-react/src/utils/tools.ts:110-137 | the rank sum of one sample is its triangle number plus pairs won plus half of the draws, the theorem behind the closed form of U |
| RankSums.RanksSumToTriangle | packages/itmat-ui-react/src/utils/tools.ts:70-88 | fractional ranks of n values add up to n(n+1)/2, whatever the ties |
| RankSums.PairTrichotomy | packages/itmat-ui-react/src/utils/tools.ts:110-137 | wins, losses and draws account for all nx * ny pairs |
| MannWhitney.StatisticSharesPairs | packages/itmat-ui-react/src/utils/tools.ts:136-145 | ux + uy = nx * ny, both lie in [0, nx * ny], and big and small are the two of them |
| MannWhitney.TieFactorInRange | packages/itmat-ui-react/src/utils/tools.ts:119-135 | the correction factor is a number exactly when there are two values or more, and then 0 < tcf <= 1 |
| MannWhitney.TieSumCompleteIff | packages/itmat-ui-react/src/utils/tools.ts:119-135 | the code's t is the full tie sum exactly when the greatest value occurs once |
| MannWhitney.TiedTopIsMissed | packages/itmat-ui-react/src/utils/tools.ts:119-135 | the samples [1] and [1]: the code's correction factor is 1 where the full tie sum makes it 0 |
| MannWhitney.SwapSamples | packages/itmat-ui-react/src/utils/tools.ts:110-146 | exchanging the samples exchanges ux and uy and nothing else |
| MannWhitney.TestIsDefinedIff | packages/itmat-ui-react/src/utils/tools.ts:182-225 | the test divides by a positive deviation exactly when neither sample is empty |
| MannWhitney.MirrorTest | packages/itmat-ui-react/src/utils/tools.ts:182-225 | testing "x less than y" is testing "y greater than x"; the two-sided test does not depend on the order |
| Splits.SplitsAreAll | packages/itmat-ui-react/src/utils/tools.ts:182-225 | what the variance is of: the ways to mix nx values of one sample and ny of the other without ties are exactly the words with nx x's and ny y's |
| Splits.SplitsDistinct | packages/itmat-ui-react/src/utils/tools.ts:182-225 | and each of them is taken once |
| Splits.SplitStatistic | packages/itmat-ui-react/src/utils/tools.ts:110-146 | on the values of such a word the statistic counts its pairs, with nothing tied |
| Splits.VarianceIsSpread | packages/itmat-ui-react/src/utils/tools.ts:195-203 | over all these ways the mean of U is nx * ny / 2 and its mean squared deviation is the square of the code's standard deviation at factor 1 |
| Splits.TestVariance | packages/itmat-ui-react/src/utils/tools.ts:195-203 | for every two samples the variance is that of U times the correction factor for ties |
| Splits.UntiedVariance | packages/itmat-ui-react/src/utils/tools.ts:195-203 | without ties it is that of U |
| Splits.TestShift | packages/itmat-ui-react/src/utils/tools.ts:195-224 | what is divided is how far U of the asked side, or the greater U for two-sided, is from the mean of U, with the half added to the mean where asked for; U given back is the smaller one, and p is doubled exactly for two-sided |
| StudyCore.StudyStore.CreateStudy | packages/itmat-cores/src/coreFunc/studyCore.ts:73-168 | a new study has no versions and current version -1 |
| StudyCore.StudyStore.CreateField | packages/itmat-cores/src/coreFunc/dataCore.ts:161-265 | exactly one unpublished field document is added, with the file property where the type needs it, or nothing |
| StudyCore.StudyStore.EditField | packages/itmat-cores/src/coreFunc/dataCore.ts:283-388 | an edit succeeds exactly for a reader with the right, valid input and a stored live document, and adds one unpublished document that merges the input into the first stored live document, not the newest one |
| FieldHistory.EditKeepsUngivenIff | packages/itmat-cores/src/coreFunc/dataCore.ts:317-385 | the attributes an edit does not give keep their current value exactly when the first stored live document agrees on them with the newest one |
| FieldHistory.RunKeepsEditBase | packages/itmat-cores/src/coreFunc/dataCore.ts:317-385 | in every run all edits of a field start from one and the same document: no edit builds on another |
| FieldHistory.NameEditIsLost | packages/itmat-cores/src/coreFunc/dataCore.ts:283-388 | create, edit the name, edit the type: the last document has the old name |
| FieldHistory.DeletedFieldIsEditable | packages/itmat-cores/src/coreFunc/dataCore.ts:317-323 | behind a newest document that is a tombstone a live one is always stored, so an edit of a deleted field succeeds as of any other |
| FieldHistory.DeletedFieldIsEdited | packages/itmat-cores/src/coreFunc/dataCore.ts:283-388 | create, delete, edit: the edit succeeds and adds a live document |
| FieldHistory.EditRevives | packages/itmat-cores/src/coreFunc/dataCore.ts:100-142 | after such an edit, made later than the field's other documents, reads in whose scope it is find the field again |
| StudyCore.StudyStore.DeleteField | packages/itmat-cores/src/coreFunc/dataCore.ts:399-463 | deletion succeeds exactly for a reader with the right whose newest stored document of the field is no tombstone, and adds a tombstone with that document's declaration |
| StudyCore.StudyStore.UploadData | packages/itmat-cores/src/coreFunc/dataCore.ts:524-736 | the loop stores one unpublished document for each clip that passes, in order, and answers every clip with its verdict; where the parser of a value throws, the whole call fails, and of the documents before it exactly those in the batches already sent off are stored |
| Uploads.AnswerIs | packages/itmat-cores/src/coreFunc/dataCore.ts:544-710 | a clip is refused for its right exactly if it is not permitted, then for its field exactly if the requester finds no live newest field of that id, and is otherwise stored, refused or thrown at as the parser of that field says |
| Uploads.StoredAre | packages/itmat-cores/src/coreFunc/dataCore.ts:700-736 | exactly the clips with no refusal are stored, in order, each as one unpublished document with the parsed value, its properties and the requester |
| Uploads.SentOffWhenFull | packages/itmat-cores/src/coreFunc/dataCore.ts:560-736 | nothing is sent off before the end if no batch is ever full, and everything if every document fills one |
| StudyCore.StudyStore.DeleteData | packages/itmat-cores/src/coreFunc/dataCore.ts:1295-1336 | deletion adds one unpublished tombstone for the property tuple and changes no document |
| StudyCore.StudyStore.CreateDataVersion | packages/itmat-cores/src/coreFunc/studyCore.ts:352-499 | exactly the unpublished documents of the study are stamped, the version is appended and made current; the call throws that there is nothing to update exactly when nothing of the study was unpublished, and of its errors only this one changes the store |
| StudyCore.DecimalIs | packages/itmat-cores/src/coreFunc/studyCore.ts:376-382 | a version may be named by digits with one dot at most, which stands between digits |
| StudyCore.StudyStore.SetDataversionAsCurrent | packages/itmat-cores/src/coreFunc/studyCore.ts:509-552 | the call succeeds exactly for an authorised reader of an existing study with one version of the id, and makes its index the current one; otherwise nothing changes |
| StudyHistory.RunKeepsWellFormed | packages/itmat-cores/src/coreFunc/studyCore.ts:485-547 | in every state of every run -1 <= currentDataVersion < number of versions, and version ids are not repeated |
| StudyHistory.RunKeepsSnapshot | packages/itmat-cores/src/coreFunc/dataCore.ts:1134-1236 | in any run of uploads, deletions, field edits, publications and selections the documents stamped with published versions stay the same, in the same order |
| StudyHistory.SnapshotIsImmutable | packages/itmat-cores/src/coreFunc/dataCore.ts:751-852 | once its versions are published, a data read at named versions returns the same rows after any run, for every reader |
| StudyHistory.FieldSnapshotIsImmutable | packages/itmat-cores/src/coreFunc/dataCore.ts:77-143 | the same for reading fields |
| StudyHistory.PublishKeepsScope | packages/itmat-cores/src/coreFunc/dataCore.ts:791-797 | with the last version current, publishing keeps every data document of the study in or out of the default scope |
| StudyHistory.PublishKeepsView | packages/itmat-cores/src/coreFunc/studyCore.ts:395-490 | with the last version current and a reader admitted to unpublished data, publishing changes the default view only in the version stamps |
| Publication.PublishKeepsScopeIff | packages/itmat-cores/src/coreFunc/studyCore.ts:485-490 | publishing keeps every data and field document in or out of scope exactly when the last version was current, or nothing was unpublished and nothing carries the version after the current one |
| Publication.ViewBehind | packages/itmat-cores/src/coreFunc/dataCore.ts:751-852 | published behind the last version, the default view of every reader becomes what a read at the versions up to the next one gave before |
| Publication.PublishKeepsViewIff | packages/itmat-cores/src/coreFunc/dataCore.ts:751-852 | for a reader admitted to unpublished data, the default view keeps its rows exactly when the last version was current or that earlier read gave the same rows |
| Publication.UnaffectedKeepsView | packages/itmat-cores/src/coreFunc/dataCore.ts:751-852 | where no data or field document of the study is affected, every reader's default view stays as it is |
| Publication.TombstoneHidesData | packages/itmat-cores/src/coreFunc/studyCore.ts:395-490 | in the run of create a field, upload, publish, delete the field, publish, select the first version, publish: every data document keeps its scope and the data disappears from the view |
| StudyHistory.FieldsAreNewestAlive | packages/itmat-cores/src/coreFunc/dataCore.ts:120-142 | a field read returns exactly the fields in the reader's scope that are the newest of their id there and no tombstones, where no two documents in scope of one id share a creation time |
| StudyHistory.QueryIsNewestAlive | packages/itmat-cores/src/coreFunc/dataCore.ts:1176-1218 | a data read of one field returns exactly the documents in scope that are the newest of their property tuple there and no tombstones, where no two of them of one tuple share a creation time; what is in scope is told by DataReads |
| StudyHistory.LogIsMap | packages/itmat-cores/src/coreFunc/dataCore.ts:1176-1218 | sort descending, group by property tuple, first, drop tombstones gives exactly the documents of a plain map on which uploads put and deletions remove |
| StudyHistory.ReadIsReplay | packages/itmat-cores/src/coreFunc/dataCore.ts:1176-1218 | for a reader admitted to all of a field's documents, the field's query returns the replay of the field's stored log, where times grow along each property tuple of this field |
| StudyHistory.RowsAreReplay | packages/itmat-cores/src/coreFunc/dataCore.ts:751-852 | the rows of a data read over all fields are exactly the entries of the replayed logs of the fields it goes through |
| DataReads.FieldReadIs | packages/itmat-cores/src/coreFunc/dataCore.ts:77-143 | a field read fails exactly without roles or without the study, and otherwise gives exactly the stored fields that are live and the newest of their id at the versions read, each version query spelled out, of the ids named or of those a permission with the bit of value 4 matches; creation times of one field are distinct |
| DataReads.DataReadIs | packages/itmat-cores/src/coreFunc/dataCore.ts:751-852 | a data read fails exactly without roles or without the study, gives nothing where a role has no permission with fields, and otherwise exactly the rows of the live documents that are the newest of their properties among those the reader may be given: made by the requester, or covered by a permission whose fields match, whose property patterns all match, and which is for unpublished data if the document is unpublished |
| DataReads.RowIsCovered | packages/itmat-cores/src/coreFunc/dataCore.ts:1134-1236 | with no condition on times: every row of every data read is that of a stored live document at the versions read that the requester made or some permission covers in its fields, properties and unpublished data |
| DataReads.UnpublishedIsOwn | packages/itmat-cores/src/coreFunc/dataCore.ts:1157-1159 | a reader none of whose permissions includes unpublished data gets unpublished rows of own documents only |
| DataReads.FieldsInOrder | packages/itmat-cores/src/coreFunc/dataCore.ts:1225-1235 | the rows come field by field in the order in which the fields are named |
| ReadRights.SelectedFieldsNeedNoRight | packages/itmat-cores/src/coreFunc/dataCore.ts:113-119 | a read of named fields gives every reader with a role the same fields, whatever rights the roles hold |
| ReadRights.BitsMatterForFieldsOnly | packages/itmat-cores/src/coreFunc/dataCore.ts:1134-1200 | two readers whose permissions differ in their bits only and who find the same readable fields are given the same rows: a data read tests no bit |
| ReadRights.OneRowIsReadIff | packages/itmat-cores/src/coreFunc/dataCore.ts:1140-1200 | of one published row a reader of the field is given the row exactly if some permission admits it, whatever that permission is for |
| ReadRights.UncoveredRowIsRead | packages/itmat-cores/src/coreFunc/dataCore.ts:1140-1200 | a permission for writing only brings in a row that no permission for reading covers |
| GroupKeys.UnambiguousIff | packages/itmat-cores/src/coreFunc/transformationCore.ts:60-62 | a tuple of texts can be told from every other one by its joined string exactly when it has at most one part or no part contains a bar |
| VersioningRead.SameGroupIffSameTuple | packages/itmat-cores/src/coreFunc/transformationCore.ts:60-70 | for clips whose key paths hold bar-free strings, GROUP puts two clips together exactly when their key tuples are equal |
| GroupTexts.SameGroupIffAlike | packages/itmat-cores/src/coreFunc/transformationCore.ts:60-70 | for scalar key values with bar-free texts, GROUP puts two clips together exactly when the values are equal one by one, or one is a string that spells the other |
| GroupTexts.DifferentValuesOneGroup | packages/itmat-cores/src/coreFunc/transformationCore.ts:60-70 | the number 1 and the string 1 are one group, and so are null and the string null |
| VersioningRead.GroupIsPartition | packages/itmat-cores/src/coreFunc/transformationCore.ts:35-74 | where no item has a key text that every object inherits, GROUP succeeds and makes non-empty groups, one per key string, each the items of that string in order; nothing is lost or repeated, and items without a key stand alone or are skipped |
| VersioningRead.GroupableIff | packages/itmat-cores/src/coreFunc/transformationCore.ts:46-70 | GROUP throws at an item exactly when there is one key and the text of its value is the name of something every object inherits, such as constructor |
| VersioningRead.InheritedNameThrows | packages/itmat-cores/src/coreFunc/transformationCore.ts:46-70 | an input: a document of a field with the id constructor, grouped by field |
| VersioningRead.GroupThenCount | packages/itmat-cores/src/coreFunc/transformationCore.ts:399-416 | COUNT after a GROUP that succeeds gives one count per group and the counts add up to the number of items |
| VersioningRead.LeaveOneIsFirstBest | packages/itmat-cores/src/coreFunc/transformationCore.ts:183-200 | LEAVEONE fails exactly where a score cannot be calculated; otherwise it picks the first item of the best score, the one no other betters and no earlier one has, and where there is none, since the group is empty or some score is no number, it leaves an undefined item |
| VersioningRead.PassesIff | packages/itmat-cores/src/coreFunc/transformationCore.ts:363-380 | FILTER keeps a clip exactly when some named filter has all its verifiers hold |
| VersioningRead.StoredClipIsWellShaped | packages/itmat-cores/src/coreFunc/dataCore.ts:712-726 | a stored document, whatever else its life holds, meets the conditions of the equivalence with the database read, for keys of the document and of its properties at which GROUP does not throw |
| VersioningRead.LeaveOneKeepsNewest | packages/itmat-cores/src/coreFunc/transformationCore.ts:183-200 | LEAVEONE by creation time descending keeps a newest clip of each group |
| VersioningRead.VersioningIsDatabaseRead | packages/itmat-cores/src/coreFunc/dataCore.ts:1238-1283 | the in-memory pipeline gives the same multiset of clips as the database read, for clips with their life times, bar-free string keys at none of which GROUP throws, and times distinct within each key tuple |
| VersioningRead.NewestLeavesUndefined | packages/itmat-cores/src/coreFunc/transformationCore.ts:183-200 | GROUP and LEAVEONE by creation time go on where creation times are missing: one item is left for each group, an undefined one exactly for the groups that hold a clip without a creation time |
| VersioningRead.RowsLeaveUndefined | packages/itmat-interface/test/trpcTests/data.test.ts:1733-1831 | on rows without their life, these two stages give as many undefined items as there are groups |
| VersioningRead.UndefinedItemFailsIff | packages/itmat-cores/src/coreFunc/transformationCore.ts:120-514 | a stage on a list whose other items pass fails on an undefined item exactly when it reads a key of it: AFFINE and FLATTEN always, FILTER if a condition it comes to reads one, DECONCAT and DEGROUP if they have keys, GROUP never |
| VersioningRead.GroupDropsUndefined | packages/itmat-cores/src/coreFunc/transformationCore.ts:49-58 | a GROUP by some key that skips what it cannot match drops undefined items in silence |
| VersioningRead.ProjectedRowsFailIff | packages/itmat-cores/src/coreFunc/dataCore.ts:1203-1283 | on rows as the data read hands them over, without their life, the versioning pipeline, which ends in a FILTER, fails exactly when it groups and a row is left to group |
| VersioningRead.FlattenFlagIff | packages/itmat-cores/src/coreFunc/transformationCore.ts:467-514 | with keepFlattened the clip keeps its own values where the flattened object has the same keys, without it the object's values win, and the results are equal exactly where these agree |
| KeyRules.AffineIs | packages/itmat-cores/src/coreFunc/transformationCore.ts:127-150 | AFFINE makes r of a clip exactly if r is reached by setting for each rule in turn the calculated key to the calculated value, converting the values of the keys that have a conversion, and taking out the removed keys |
| KeyRules.ConstantRule | packages/itmat-cores/src/coreFunc/transformationCore.ts:127-150 | a rule with a constant key and value leaves the value under the key, unless a later rule, a conversion or a removal is about the key |
| KeyRules.OtherKeysStay | packages/itmat-cores/src/coreFunc/transformationCore.ts:127-150 | a key that no rule sets keeps its value, converted if it has a conversion, unless it is removed |
| KeyRules.KeysOfAffine | packages/itmat-cores/src/coreFunc/transformationCore.ts:127-150 | the keys afterwards are those of the clip and the added ones without the removed ones |
| KeyRules.CountIs | packages/itmat-cores/src/coreFunc/transformationCore.ts:399-416 | COUNT makes r of a group exactly if r is the size under count with the keys the rules calculate on the first item set in turn |
| KeyRules.FormulaIs | packages/itmat-cores/src/coreFunc/utilsCore.ts:60-108 | a constant is itself, SELF the value at hand, a table translates strings and throws at the rest, other operations throw |
| KeyRules.VariableIs | packages/itmat-cores/src/coreFunc/utilsCore.ts:71-86 | a variable's path is cut at its dots and followed to the end; a missing key on the way gives undefined, and nothing or null before the end throws |
| StageResults.GroupsAre | packages/itmat-cores/src/coreFunc/transformationCore.ts:46-74 | the groups come in the order in which their keys first appear, and behind them, unless skipped, the items without a key, in order and each alone |
| StageResults.JoinIs | packages/itmat-cores/src/coreFunc/transformationCore.ts:220-227 | a joined group has the keys of its items, each with the value of the last item that has it |
| StageResults.ConcatIs | packages/itmat-cores/src/coreFunc/transformationCore.ts:243-270 | a concatenated group has the keys of its clips: the list of all values in order under the keys given, under the others the first value that counts as true |
| StageResults.DeconcatIs | packages/itmat-cores/src/coreFunc/transformationCore.ts:300-345 | a clip is taken apart into as many clips as its longest list under the keys has elements, the i-th with the i-th elements and the clip's values under the other keys |
| StageResults.DegroupIs | packages/itmat-cores/src/coreFunc/transformationCore.ts:438-459 | the i-th part has the shared keys and those of the i-th list, with the clip's values, undefined where it has none |
| StageResults.FlattenIs | packages/itmat-cores/src/coreFunc/transformationCore.ts:495-514 | the keys and values of a flattened clip, with the flag deciding where both have a key |
| StageResults.FilterIs | packages/itmat-cores/src/coreFunc/transformationCore.ts:363-380 | FILTER leaves the items that pass, in order |
| StageResults.ConditionIs | packages/itmat-cores/src/coreFunc/utilsCore.ts:14-38 | the null tests ask whether the calculated value is null itself, and a formula that throws makes FILTER throw |
| StageResults.ShapesAre | packages/itmat-cores/src/coreFunc/transformationCore.ts:35-550 | which stages refuse lists of items and which lists of groups, that the empty list is both, and that an unknown operation is refused |
| RoundTrips.ConcatRoundTripIff | packages/itmat-cores/src/coreFunc/transformationCore.ts:243-345 | sequential DECONCAT undoes CONCAT on a group of clips exactly when the group is empty, or its clips share one key set holding all of a non-empty key list and agree off that list |
| RoundTrips.ConcatStagesRoundTripIff | packages/itmat-cores/src/coreFunc/transformationCore.ts:243-345 | the same through the two stages, on whole lists of groups; a group with an undefined item never comes back |
| RoundTrips.DegroupRoundTripIff | packages/itmat-cores/src/coreFunc/transformationCore.ts:438-459 | joining the parts of a split clip gives it back exactly when the parts' keys are the clip's keys |
| RoundTrips.DegroupStagesRoundTripIff | packages/itmat-cores/src/coreFunc/transformationCore.ts:213-459 | the same through DEGROUP and JOIN, on whole lists; an undefined item never comes back |
| TransformationHeap.JoinItems | packages/itmat-cores/src/coreFunc/transformationCore.ts:220-227 | the loop over a group's objects merges them, later items winning; an undefined item adds nothing |
| TransformationHeap.ConcatItems | packages/itmat-cores/src/coreFunc/transformationCore.ts:250-266 | the loops over items and keys leave lists under the concatenated keys and the first truthy value under the others, and throw exactly where an item is undefined |
| TransformationHeap.CountItems | packages/itmat-cores/src/coreFunc/transformationCore.ts:404-413 | the count and the added keys of a group, evaluated on its first item |
| TransformationHeap.FlattenItem | packages/itmat-cores/src/coreFunc/transformationCore.ts:495-514 | a clip with no object under the key is passed on, otherwise a new clip gets the object's keys under the conflict rule |
| TransformationHeap.GroupList | packages/itmat-cores/src/coreFunc/transformationCore.ts:35-74 | the loop over the items computes GROUP, also where it throws, and passes on references to the input's objects, none more often than it came in |
| TransformationHeap.AffineItem | packages/itmat-cores/src/coreFunc/transformationCore.ts:127-150 | in place: the clip becomes what AFFINE makes of it on values, or it throws where that fails |
| TransformationHeap.AffineList | packages/itmat-cores/src/coreFunc/transformationCore.ts:120-159 | every clip is changed in place to its affined value and those with keys left are returned; where it throws, the clips before that place are affined and those behind it are as they were |
| TransformationHeap.Transform | packages/itmat-cores/src/coreFunc/transformationCore.ts:538-550 | each stage on objects and undefined places computes its stage on values; building stages return only new, different objects, selecting ones only objects they were given, FILTER keeps exactly the objects that pass, FLATTEN builds exactly for the clips with an object under its key, and AFFINE changes every clip that reaches it to its affined value |
| Aggregation.ComposeAll | packages/itmat-cores/src/coreFunc/transformationCore.ts:538-550 | on clip objects that are all different, any pipeline computes its composition on values; what it does to the input is followed stage by stage |
| Aggregation.RunKeepsInputIff | packages/itmat-cores/src/coreFunc/transformationCore.ts:120-159 | a pipeline leaves its input as it is if every AFFINE is harmless for the clips it comes to before all are built anew; one that only removes keys does so exactly if no such clip has one of its keys, also where it throws at an undefined item |
| Aggregation.Aggregate | packages/itmat-cores/src/coreFunc/transformationCore.ts:552-568 | every pipeline runs on the input as the ones before left it, up to the first failure; if all spare the input, it is unchanged and each entry is its pipeline's result alone, which holds when every AFFINE comes after a stage that builds its clips, and pipelines that only remove keys leave it unchanged only then; without pipelines the input is returned as raw |
| Aggregation.EntryAtReturn | packages/itmat-cores/src/coreFunc/transformationCore.ts:552-568 | what later pipelines do to an entry: its objects that are the input's read as the input was left at the end, the others as its own pipeline left them; all entries of GROUP, LEAVEONE, FILTER and AFFINE pipelines are of the first kind |
| Aggregation.AggregateFilterThenGroup | packages/itmat-cores/src/coreFunc/transformationCore.ts:552-568 | where the first pipeline keeps some rows and leaves a key out of them and the second one groups by that key, the second one gets exactly the groups of the rows the first one did not keep |
| Aggregation.SameAsAloneIff | packages/itmat-cores/src/coreFunc/transformationCore.ts:552-568 | these are the groups the second pipeline gives alone if and only if no row that the first one keeps has all the keys |
| Aggregation.ReceivedRowIsLost | packages/itmat-cores/src/coreFunc/dataCore.ts:1203-1236 | an input as the data read hands it over: one published row, taken without its field by the first pipeline and in no group of the second one, where alone there is one |
| Normalize.NormalizeIsIdempotent | packages/itmat-cores/src/coreFunc/utilsCore.ts:137-149 | normalizing a normal form changes nothing, for all JSON trees |
| Normalize.NormalizeIsCanonical | packages/itmat-cores/src/coreFunc/utilsCore.ts:137-149 | on trees whose arrays hold only strings or only objects, equal normal forms mean exactly: equal up to the order of object keys and of string arrays |
| Normalize.NormalFormIsTheSame | packages/itmat-cores/src/coreFunc/utilsCore.ts:137-149 | the normal form is the given tree but for these orders, and in it keys and elements ascend by code points |
| Drive.WalkAgreesWithPath | packages/itmat-cores/src/coreFunc/driveCore.ts:759-788 | the recursive walk over children finds exactly the live nodes whose path contains the node |
| Drive.WalkVisitsOnce | packages/itmat-cores/src/coreFunc/driveCore.ts:759-788 | the walk visits no node twice |
| DriveCore.DriveStore.RecursiveFindDrives | packages/itmat-cores/src/coreFunc/driveCore.ts:759-788 | the recursion terminates and appends exactly the walk's nodes and files, in order |
| DriveCore.DriveStore.CreateDriveFolder | packages/itmat-cores/src/coreFunc/driveCore.ts:29-100 | a folder goes under a live folder the requester may write to, with that folder's manager and permissions; the tree invariant is kept and failures change nothing |
| DriveCore.DriveStore.CreateDriveFile | packages/itmat-cores/src/coreFunc/driveCore.ts:113-204 | only the parent's manager can upload, since the check of the shared users never holds; the name is looked up under the parent id as given; the tree invariant is kept |
| DriveCore.DriveStore.EditDrive | packages/itmat-cores/src/coreFunc/driveCore.ts:416-580 | renaming fails on any sibling name, also the node's own; new permissions reach everything below |
| DriveCore.DriveStore.ShareDriveToUserViaEmail | packages/itmat-cores/src/coreFunc/driveCore.ts:798-838 | the call of a manager succeeds, and afterwards every live node whose path contains the shared id has one permission for each email of a known user, in order, with that user's id and the rights as given; nothing else changes; the loop of edits succeeds on every node |
| DriveCore.DriveStore.DeleteDrive | packages/itmat-cores/src/coreFunc/driveCore.ts:720-757 | the walk's nodes and their files are marked deleted and nothing else; the parent keeps the id in its list |
| DriveCalls.FolderCall | packages/itmat-cores/src/coreFunc/driveCore.ts:29-100 | the answer to a call for a folder: who is refused for which reason in which order, and otherwise the one node added, in all its fields, and the one child the parent gains |
| DriveCalls.FileCall | packages/itmat-cores/src/coreFunc/driveCore.ts:113-204 | the same for an upload, which only the target's manager may make |
| DriveCalls.EditCall | packages/itmat-cores/src/coreFunc/driveCore.ts:416-580 | the same for an edit, with the fields of every node afterwards |
| DriveCalls.ShareCall | packages/itmat-cores/src/coreFunc/driveCore.ts:798-838 | the same for sharing with given permissions |
| DriveCalls.DeleteCall | packages/itmat-cores/src/coreFunc/driveCore.ts:720-757 | the same for a deletion |
| DriveCore.RecipientsAre | packages/itmat-cores/src/coreFunc/driveCore.ts:811-824 | the permissions stored are, in order, one for each email of a known user, with that user's id and the rights to read, write and delete as given |
| DriveCalls.RecipientMakesFolder | packages/itmat-cores/src/coreFunc/driveCore.ts:69-97 | after sharing by email a recipient other than the manager may make a folder in the shared folder, or in any below it, exactly if the right to write was given |
| DriveMove.MoveBreaksTree | packages/itmat-cores/src/coreFunc/driveCore.ts:467-571 | no move keeps the tree: an old parent still lists the live node, beside the new one, and a root comes to lie below itself or another manager's node |
| DriveMove.PathsFitIff | packages/itmat-cores/src/coreFunc/driveCore.ts:535-571 | after a move the paths of the nodes below fit exactly when there are none or the node keeps its own path |
| DriveMove.MoveMakesCycle | packages/itmat-cores/src/coreFunc/driveCore.ts:467-571 | a folder can be moved below itself, after which two folders list each other |
| DriveHistory.After | packages/itmat-cores/src/coreFunc/driveCore.ts:69-788 | over every run of user creation, folders, files, edits, sharing and deletion the collection is a tree: parent, children and path agree, managers agree, sibling folders have different names |
| DriveHistory.RunIsTree | packages/itmat-cores/src/coreFunc/driveCore.ts:69-97 | in every run each live non-root node is listed by its live parent folder and its path is the parent's path and its own id |
| DriveHistory.RunPersists | packages/itmat-cores/src/coreFunc/driveCore.ts:69-788 | in every run no node disappears, moves or comes back from deletion, and a deleted node never changes |
| DriveHistory.DeleteMarksPath | packages/itmat-cores/src/coreFunc/driveCore.ts:738-745 | deletion marks exactly the live nodes whose path contains the deleted id and changes no other field |
| DriveHistory.ShareReachesPath | packages/itmat-cores/src/coreFunc/driveCore.ts:823-836 | sharing sets the permissions of exactly the live nodes whose path contains the shared id |
| DriveHistory.ProtectedSurviveIff | packages/itmat-cores/src/coreFunc/driveCore.ts:720-745 | a deletion spares every protected folder exactly when none lies below the deleted node; the documented protection does not hold for those |
| DriveHistory.ProtectedFolderIsDeleted | packages/itmat-cores/src/coreFunc/driveCore.ts:720-745 | a run in which a protected folder goes with an unprotected one above it |
| DriveHistory.FileNamesKeptIff | packages/itmat-cores/src/coreFunc/driveCore.ts:151-166 | an upload keeps file names unique in a folder exactly when the name is not taken there, which the code ensures when a parent id is given |
| DriveHistory.SameNameTwice | packages/itmat-cores/src/coreFunc/driveCore.ts:151-166 | a run of two uploads of one name without a parent id, after which the root has both |
| DriveCopy.CopiedPath | packages/itmat-cores/src/coreFunc/driveCore.ts:666-672 | a copied node's path is its copied parent's path and its own new id |
| DriveCopy.CopiedTopPath | packages/itmat-cores/src/coreFunc/driveCore.ts:666-672 | the copied top node's path is the target's path and its new id |
| DriveCopy.CopyIsIsomorphicIff | packages/itmat-cores/src/coreFunc/driveCore.ts:652-699 | the copies form a tree of the same shape under the target exactly when no copied node lists a deleted child and every file record is found |
| DriveCopy.CopyAfterDeleteIsNot | packages/itmat-cores/src/coreFunc/driveCore.ts:652-745 | after any deletion, a copy that takes in the parent of the deleted node is not of the same shape |
| DriveCopy.CopyWithDeletedChild | packages/itmat-cores/src/coreFunc/driveCore.ts:590-745 | a run in which such a copy is made: a folder's child is deleted and the folder copied |
| DriveCopy.CopyDrive | packages/itmat-cores/src/coreFunc/driveCore.ts:590-702 | the collection afterwards is the one before with the copies of the nodes the walk finds, under unused different ids, and nothing else changed; it throws exactly for the stated reasons, one of them that nothing is left to insert; the walk's conditions are kept, so copies can be made of copies |
| CopyCalls.CopyCall | packages/itmat-cores/src/coreFunc/driveCore.ts:630-702 | what a copy leaves, in every field of every stored node, complete or not: all nodes found but files without a record, each under its new id, the requester's, unprotected and shared with nobody, linked and placed by the new ids, with no id where a listed child was not found |
| CopyCalls.MayCopyIff | packages/itmat-cores/src/coreFunc/driveCore.ts:590-612 | who may copy: the node is live and no root and the requester manages it or may read it, and may write to the live target |
| DriveCopy.NothingCopiedIff | packages/itmat-cores/src/coreFunc/driveCore.ts:660-699 | nothing is left to insert exactly if the one file to copy has no record; a folder is always copied |
| DriveCopy.CopyKeepsWalkable | packages/itmat-cores/src/coreFunc/driveCore.ts:654-699 | after a copy paths still extend the parents' paths and lists still lead to children, copies included |
| DriveCopy.CopyBreaksTree | packages/itmat-cores/src/coreFunc/driveCore.ts:654-699 | the target does not list the copied top node, so what the other operations keep no longer holds |
| DriveCopy.CopyIsNotFound | packages/itmat-cores/src/coreFunc/driveCore.ts:654-788 | from every node that was there the walk finds what it found before: deleting or sharing the target, or a folder above it, misses the copy |
| DriveCopy.CopyWalksAlike | packages/itmat-cores/src/coreFunc/driveCore.ts:654-788 | the walk from the copied top node finds the copies, in the order in which it found the originals |
| DriveCopy.CopyOfCopyHasNoFile | packages/itmat-cores/src/coreFunc/driveCore.ts:660-699 | in the collection a first copy leaves, a copy of that copy holds no file, since no file record is made for the first one |
| DriveCopy.CopyAgain | packages/itmat-cores/src/coreFunc/driveCore.ts:590-702 | a run from any state: a file is copied, and the call that copies the copy throws, wherever it is to go |
| Scheduling.NextJobIsBest | packages/itmat-commons/src/utils/poller.ts:124-171 | the next job is a ready one, of the highest priority where priorities count and the earliest of these; there is none only if no job is ready |
| Scheduling.PickIsFirstLeast | packages/itmat-commons/src/utils/poller.ts:146-161 | of jobs ranked level the first in the collection is taken |
| Scheduling.PollStores | packages/itmat-commons/src/utils/poller.ts:49-113 | a poll changes the picked job only: a one-off job whose action returns is FINISHED on success and ERROR on failure, a periodic one stays PENDING with its next time a period later, the counter grows exactly if the action does not throw, and the history tells whether it failed |
| Scheduling.NoStarvation | packages/itmat-commons/src/utils/poller.ts:124-171 | with all pending jobs periodic and of equal priority, one of the next N polls after a job's time picks it, N being the number of pending jobs, whatever the periods and outcomes |
| Scheduling.RunsEarlyIff | packages/itmat-commons/src/utils/poller.ts:124-171 | the next job runs before its next execution time exactly when every ready job whose time has come is outranked by a ready job of higher priority; it is then a periodic one |
| Scheduling.PeriodicRunsEarly | packages/itmat-commons/src/utils/poller.ts:129-134 | an input: a periodic job alone is picked at any time, also before its next execution time |
| Scheduling.OneOffStep | packages/itmat-commons/src/utils/poller.ts:49-113 | one execution of a one-off job: it stays pending exactly when the action throws or returns nothing, each throw adds one FAILED entry, and the attempts left go down by one on a throw |
| Scheduling.BoundedRetry | packages/itmat-commons/src/utils/poller.ts:49-142 | over any run of polls a one-off job's action runs at most maxAttempts + 1 times, not counting executions that return nothing |
| Scheduling.NoResultNeverStops | packages/itmat-commons/src/utils/poller.ts:57-113 | the exception is needed: an action that returns nothing is executed on each of any number of polls |
| Scheduling.ReturningJobRunsOnce | packages/itmat-commons/src/utils/poller.ts:64-91 | a one-off job whose action always returns runs at most once, even if every result is a failure: the retry delay has no effect |
| Scheduling.ReturnedIsFinal | packages/itmat-commons/src/utils/poller.ts:124-142 | a job that is not pending is never executed again and never changes |
| Poller.JobPoller.FindNextJob | packages/itmat-commons/src/utils/poller.ts:124-171 | the best job is returned and, if periodic, stored with its next time moved on |
| Poller.JobPoller.CheckForJobs | packages/itmat-commons/src/utils/poller.ts:40-115 | the same of the update built step by step: every status, next time, counter and history entry as the action's outcome demands |
| Poller.JobDispatcher.Dispatch | packages/itmat-job-executor/src/jobDispatch/dispatcher.ts:29-52 | dispatch throws exactly when it has no handler; otherwise it returns what the handler made for that type returns, and a handler's exception is a failed result; later dispatches use the same handlers |
| Poller.JobDispatcher.RegisterJobType | packages/itmat-job-executor/src/jobDispatch/dispatcher.ts:20-22 | registering a type again does not replace a handler already made |
| Poller.JobDispatcher.RemoveHandler | packages/itmat-job-executor/src/jobDispatch/dispatcher.ts:24-27 | the type has no handler, made or to be made, and other types keep theirs |
| Instances.DeletionSafety | packages/itmat-cores/src/coreFunc/instanceCore.ts:362-432 | from a state where only deletion waits for the instance, after any run without a further call on it: the status stays DELETED until the record is gone, it does not come back, and only deletion is asked of LXD |
| Instances.DeletedInstanceIsSafe | packages/itmat-cores/src/coreFunc/instanceCore.ts:362-432 | the same from the call of deleteInstance on, in any state and whatever jobs were waiting |
| Instances.DeleteDooms | packages/itmat-cores/src/coreFunc/instanceCore.ts:410-428 | the call leaves no other waiting job for the instance, named in the metadata or the executor |
| Instances.DeleteQueues | packages/itmat-cores/src/coreFunc/instanceCore.ts:396-428 | the call marks the record DELETED, puts one waiting delete job at the end of the queue, cancels the other jobs waiting for the instance, and changes nothing else |
| Instances.DeleteJobRemoves | packages/itmat-cores/src/coreFunc/instanceCore.ts:396-432 | after the call and any run without a call on the instance or an execution of that job, the job still waits, and executing it asks LXD for the deletion and removes the record exactly if LXD did it |
| Instances.FailedDeletionStays | packages/itmat-job-executor/src/jobHandlers/lxdJobHandler.ts:263-286 | once that job has failed no run without a call on the instance removes the record |
| Instances.RemovedByDeleteJob | packages/itmat-job-executor/src/jobHandlers/lxdJobHandler.ts:263-286 | the record goes away only through a waiting delete job that finds it DELETED and whose deletion LXD did |
| Instances.DeleteJobWaits | packages/itmat-cores/src/coreFunc/instanceCore.ts:410-428 | the delete job is not cancelled or closed by any other step |
| Instances.SyncHitsNamesakeIff | packages/itmat-job-executor/src/jobHandlers/lxdMonitorHandler.ts:281-286 | a synchronizing pass over a DELETED record whose name is found at LXD asks for the deletion of an instance in use exactly when a record of the same name is not DELETED |
| Instances.DistinctNamesAreSafe | packages/itmat-job-executor/src/jobHandlers/lxdJobHandler.ts:263-286 | in any run in which no name is given twice, no deletion asked of LXD has the name of a record that is not DELETED |
| Instances.NamesakeIsDeleted | packages/itmat-cores/src/coreFunc/instanceCore.ts:176-202 | a run in which a name is given again after its instance was deleted, and the pass over the first record has the running second one deleted |
| Instances.PortIsFreeIff | packages/itmat-cores/src/coreFunc/instanceCore.ts:96-120 | the chosen port is free exactly when not both ends of the range are in use |
| Instances.ThirdOfTwoPortsCollides | packages/itmat-cores/src/coreFunc/instanceCore.ts:96-202 | a run of three creations in a range of two ports, after which two instances have one port |
| Instances.PortAllocation | packages/itmat-cores/src/coreFunc/instanceCore.ts:96-202 | in any run with at most maxPort - minPort + 1 creations, and any removals, the stored ports are pairwise different and within the range |
| InstanceStore.Store.GetValidHostPort | packages/itmat-cores/src/coreFunc/instanceCore.ts:96-120 | the port is in the range, above every port in use or the bottom of the range once its top is reached, and free unless it wrapped onto a port in use |
| InstanceStore.Store.DeleteInstance | packages/itmat-cores/src/coreFunc/instanceCore.ts:362-432 | the record is DELETED, the last job is one waiting delete job of the instance, the jobs that waited for it are cancelled and all others are as before; that job waits until it is run |
| InstanceStore.Store.GetInstances | packages/itmat-cores/src/coreFunc/instanceCore.ts:440-521 | of the user's expired instances exactly those PENDING, STARTING or RUNNING become STOPPING with one waiting stop job each, and nothing else changes |
| InstanceStore.Store.Create | packages/itmat-job-executor/src/jobHandlers/lxdJobHandler.ts:55-174 | the status and result of a create job for every answer of LXD, with a bounded number of probes |
| InstanceStore.Store.WaitUntilStopped | packages/itmat-job-executor/src/jobHandlers/lxdJobHandler.ts:79-96 | the probe loop succeeds exactly if one of the first thirty probes does |
| InstanceStore.Store.Execute | packages/itmat-job-executor/src/jobHandlers/lxdJobHandler.ts:32-53 | a job run by the executor asks LXD for its operation, changes the record as the operation and LXD's answer demand, and closes the job |
| InstanceStore.Store.UpdateInstanceState | packages/itmat-job-executor/src/jobHandlers/lxdMonitorHandler.ts:52-119 | a pass sets the user's instances that are not DELETED and that LXD reports to RUNNING, STOPPED or else FAILED as reported |
| InstanceStore.Store.SynchronizeDeletedInstances | packages/itmat-job-executor/src/jobHandlers/lxdMonitorHandler.ts:248-351 | of the user's records a pass asks LXD again for the deletion of the DELETED ones it finds, in order and under their names, marks those missing as DELETED, and returns the number of records brought in line |
| LogThrottler.Throttler.ThrottledLog | packages/itmat-commons/src/utils/logThrottler.ts:24-105 | the record map and the log stay those of the history of calls |
| LogThrottler.LoggedIff | packages/itmat-commons/src/utils/logThrottler.ts:50-75 | a call is logged exactly when it is the first since the reset, or its interval has passed since the key's last line, or the summary interval has passed since the first call and the last line |
| LogThrottler.ReportedCountIsCalls | packages/itmat-commons/src/utils/logThrottler.ts:24-105 | the log grows by exactly one line for a call that is due and by none otherwise; the line tells key, time, message and level of the call, the number of calls since the last reset, and how long ago the first of them was |
| LogThrottler.LinesAreApart | packages/itmat-commons/src/utils/logThrottler.ts:24-105 | with fixed options, a clock that does not go back and no reset, any two lines of a key are at least the smallest interval apart |
| LogThrottler.WindowBound | packages/itmat-commons/src/utils/logThrottler.ts:24-105 | a window of length T holds at most 1 + T/m lines of a key, m being the smallest interval |
| LogThrottler.SuppressedIsRecent | packages/itmat-commons/src/utils/logThrottler.ts:55-75 | a call that is kept back comes within the greater interval after the key's last line |

## Left out

- Floating point: NaN and negative zero in samples, rounding, `erf`, `dnorm` and the p-value of the rank test.
- AffineList: a list that holds one object twice, where the second visit would see the first one's changes, is shut out;
  from clips that are all different no stage makes such a list (`TransformationHeap.Transform`).
- Transform: the same, for AFFINE on data that holds one object twice.
- ComposeAll: the same, for an input that holds one object twice and a pipeline with an AFFINE before all clips are built
  anew; the rows of a query are all different objects.
- Aggregate: the same as for ComposeAll.
- AffineItem: how far a clip at which AFFINE throws has been changed is not told; and a rule with a SELF value copies the
  clip, where the code stores a reference to it in the clip itself.
- CountItems: a rule with a SELF value copies the group's first clip, where the code stores a reference to it, so that a
  later AFFINE on that clip shows in the count.
- EntryAtReturn: the same; references that such a rule leaves inside a new clip are taken as copies.
- Transformation: which exception is thrown is not kept beyond its kind; DECONCAT in combinations mode, OPERATION nodes
  of formulas, non-integer numbers, array indices in paths and properties on prototypes are not modelled; filter
  conditions other than the null tests are arbitrary tests; numeric strings and lists score as NaN.
- Transformation: objects whose keys look like integers, which JavaScript lists first, and key strings in that form.
- Normalize: strings are compared by code points; the code compares UTF-16 units, which orders some characters
  differently and changes none of the statements.
- StudyData: ties of creation times are resolved by insertion order and groups come in order of first appearance, both of
  which the database leaves open; property names with dots.
- StudyCore: the size of a full batch, value parsing, field validation and the permission of single clips are parameters;
  `deleteData` ignores the result of its permission check, as the model does.
- Cold storage, `getDataLatest`, study deletion, result caching, summaries and file reads.
- EditDrive: moving a node is not one of the actions of the runs, since it breaks their invariant, and is modelled apart
  in `DriveMove`; changing the manager is left out, and the children given to an edit, which are stored under a field
  name nothing reads. Recursive creation and listing of drives are left out too.
- CopyDrive: the sum of file sizes against the limit and the file records found are inputs; copying the stored objects is
  left out, and the null that the database stores for an undefined child is an id no node has.
- Drives: which of several default roots is found; a user has one, which is an invariant here.
- The action of a job editing the job collection, overlapping polls, and clock readings inside one filter.
- GetInstances: the two periodic monitor jobs it creates when there are none are left out; they only start the passes
  modelled as steps of their own.
- UpdateInstanceState: the LXD state stored with an instance and the reset of the throttled error counts are left out.
- Interleavings inside a job handler, a monitor pass or `getInstances`; permissions and stored settings of an
  edited instance, lifespan extensions, quotas, tokens, container addresses and usage figures.
- The text of log messages and the message a throttling record keeps, which is never read.
- Routers, guards of organisations, users and configurations, mail, object storage and proxies.
