/** The inspection endpoints of a transformer: adding an inspection and
    deleting one together with everything recorded under it. */
module InspectionController {
  import opened Common
  import opened Entities
  import opened FaultRegionModel
  import opened Database

  /** The request body of a new inspection; a missing status is `None`. */
  datatype InspectionBody = InspectionBody(
    title: string, inspector: string, notes: Option<string>, status: Option<InspectionStatus>)

  /** The inspection built from a request: it belongs to the transformer of
      the path, is stamped with the current time and is open unless the
      request says otherwise. */
  function NewInspection(transformerId: nat, body: InspectionBody, now: Time): (i: Inspection)
    ensures i.transformer == transformerId && i.createdAt == now
    ensures body.status.None? ==> i.status == Open
    ensures body.status.Some? ==> i.status == body.status.value
    ensures i.title == body.title && i.inspector == body.inspector && i.notes == body.notes
  {
    Inspection(transformerId, body.title, body.inspector, body.notes, body.status.GetOr(Open), now)
  }

  /** `addInspection`: 404 for an unknown transformer, otherwise the new
      inspection is stored under a fresh id and returned. */
  method AddInspection(db: Db, transformerId: nat, body: InspectionBody, now: Time)
    returns (res: Result<(nat, Inspection)>)
    requires db.Valid()
    modifies db`inspections, db`nextId
    ensures db.Valid()
    ensures transformerId !in old(db.transformers) ==>
      res == Err(NotFound) && db.inspections == old(db.inspections) && db.nextId == old(db.nextId)
    ensures transformerId in old(db.transformers) ==>
      && res == Ok((old(db.nextId), NewInspection(transformerId, body, now)))
      && old(db.nextId) !in old(db.inspections)
      && db.inspections == old(db.inspections)[old(db.nextId) := NewInspection(transformerId, body, now)]
  {
    if transformerId !in db.transformers {
      return Err(NotFound);
    }
    var ins := NewInspection(transformerId, body, now);
    var id := db.InsertInspection(ins);
    return Ok((id, ins));
  }

  /** The ids of the images of an inspection among the keys [lo, hi), in
      ascending order (`findByInspectionId`). */
  function ImagesOf(images: map<nat, Image>, inspectionId: nat, lo: nat, hi: nat): (ids: seq<nat>)
    ensures forall j :: 0 <= j < |ids| ==>
      lo <= ids[j] < hi && ids[j] in images && images[ids[j]].inspection == Some(inspectionId)
    ensures forall a, b :: 0 <= a < b < |ids| ==> ids[a] < ids[b]
    decreases hi - lo
  {
    if lo >= hi then []
    else if lo in images && images[lo].inspection == Some(inspectionId) then
      [lo] + ImagesOf(images, inspectionId, lo + 1, hi)
    else ImagesOf(images, inspectionId, lo + 1, hi)
  }

  lemma {:induction false} ImagesOfComplete(images: map<nat, Image>, inspectionId: nat, lo: nat, hi: nat, k: nat)
    requires lo <= k < hi && k in images && images[k].inspection == Some(inspectionId)
    ensures k in ImagesOf(images, inspectionId, lo, hi)
    decreases hi - lo
  {
    if k != lo {
      ImagesOfComplete(images, inspectionId, lo + 1, hi, k);
    }
  }

  /** The clean-up in front of deleting one image: its original result, its
      fault regions and its display metadata are deleted and, when
      `dropRecords` holds, the maintenance record that uses it as well. */
  function Unlinked(t: Tables, id: nat, dropRecords: bool): Tables
  {
    t.(originals := t.originals - {id},
       regions := map k | k in t.regions && t.regions[k].image != Some(id) :: t.regions[k],
       metadata := t.metadata - {id},
       records := if dropRecords then map k | k in t.records && t.records[k].maintenanceImage != id :: t.records[k]
                  else t.records)
  }

  /** After its clean-up only a maintenance record can still hold an image. */
  lemma UnlinkedReferenced(t: Tables, id: nat, dropRecords: bool)
    ensures ImageReferenced(Unlinked(t, id, dropRecords), id) <==> !dropRecords && RecordForImage(t.records, id)
  {
    var u := Unlinked(t, id, dropRecords);
    assert forall k :: k in u.regions ==> u.regions[k].image != Some(id);
    if dropRecords {
      assert forall k :: k in u.records ==> u.records[k].maintenanceImage != id;
    }
  }

  /** One pass of the loop over the images of the inspection: the clean-up,
      then the delete of the image, which the store refuses while the image
      is still referenced. */
  function Cleared(t: Tables, id: nat, dropRecords: bool): (Tables, bool)
  {
    var u := Unlinked(t, id, dropRecords);
    if ImageReferenced(u, id) then (u, false) else (u.(images := u.images - {id}), true)
  }

  /** The whole loop: it stops, leaving what it already did, at the first
      image the store refuses to delete. */
  function ClearImages(t: Tables, ids: seq<nat>, dropRecords: bool): (Tables, bool)
    decreases |ids|
  {
    if ids == [] then (t, true)
    else
      var (u, ok) := Cleared(t, ids[0], dropRecords);
      if !ok then (u, false) else ClearImages(u, ids[1..], dropRecords)
  }

  /** `deleteInspection`: the transformer and the inspection must exist (404)
      and the inspection must belong to the transformer (400); then its
      maintenance records, and for each of its images the rows that hang off
      it and the image itself, and finally the inspection are deleted. The
      steps are not one transaction: a refused delete ends the request with
      a 500 and leaves the earlier deletes in place. */
  function Cascaded(t: Tables, transformerId: nat, inspectionId: nat, dropRecords: bool): (Tables, Result<()>)
  {
    if transformerId !in t.transformers || inspectionId !in t.inspections then (t, Err(NotFound))
    else if t.inspections[inspectionId].transformer != transformerId then (t, Err(BadRequest))
    else Cleanup(t, inspectionId, dropRecords)
  }

  /** The deletes that follow the checks. */
  function Cleanup(t: Tables, inspectionId: nat, dropRecords: bool): (Tables, Result<()>)
  {
    var t1 := WithoutRecordsOf(t, inspectionId);
    var (t2, ok) := ClearImages(t1, ImagesOf(t1.images, inspectionId, 0, t1.nextId), dropRecords);
    if !ok || InspectionReferenced(t2, inspectionId) then (t2, Err(Internal))
    else (t2.(inspections := t2.inspections - {inspectionId}), Ok(()))
  }

  /** The first clean-up step: the maintenance records of the inspection go. */
  function WithoutRecordsOf(t: Tables, inspectionId: nat): Tables
  {
    t.(records := map k | k in t.records && t.records[k].inspection != Some(inspectionId) :: t.records[k])
  }

  /** The ids of the images of the inspection. */
  function Gone(t: Tables, inspectionId: nat): set<nat>
  {
    set k | k in t.images && t.images[k].inspection == Some(inspectionId)
  }

  /** A maintenance record of another inspection (or of none) that uses an
      image of this inspection: the controller leaves it in place, so the
      store refuses to delete that image. */
  predicate Blocked(t: Tables, inspectionId: nat)
  {
    exists k :: k in t.records && t.records[k].inspection != Some(inspectionId)
                && t.records[k].maintenanceImage in Gone(t, inspectionId)
  }

  /** The store once the inspection and everything recorded under it is gone,
      written directly: every row is kept unless it is the inspection, one of
      its images, a row hanging off one of those images, or a maintenance
      record of the inspection (with `dropRecords`, also a record that uses
      one of its images). */
  function Purge(t: Tables, inspectionId: nat, dropRecords: bool): Tables
  {
    var gone := Gone(t, inspectionId);
    t.(inspections := t.inspections - {inspectionId},
       images := t.images - gone,
       regions := map k | k in t.regions && !(t.regions[k].image.Some? && t.regions[k].image.value in gone) :: t.regions[k],
       metadata := t.metadata - gone,
       originals := t.originals - gone,
       records := map k | k in t.records && t.records[k].inspection != Some(inspectionId)
                            && !(dropRecords && t.records[k].maintenanceImage in gone)
                    :: t.records[k])
  }

  function Without<T>(m: map<nat, T>, ids: seq<nat>): map<nat, T>
  {
    map k | k in m && k !in ids :: m[k]
  }

  function RegionsWithout(regions: map<nat, RegionRow>, ids: seq<nat>): map<nat, RegionRow>
  {
    map k | k in regions && !(regions[k].image.Some? && regions[k].image.value in ids) :: regions[k]
  }

  function RecordsWithout(records: map<nat, RecordRow>, ids: seq<nat>): map<nat, RecordRow>
  {
    map k | k in records && records[k].maintenanceImage !in ids :: records[k]
  }

  /** The rows the loop removes for a list of images, written directly. */
  function Purged(t: Tables, ids: seq<nat>, dropRecords: bool): Tables
  {
    t.(images := Without(t.images, ids),
       regions := RegionsWithout(t.regions, ids),
       metadata := Without(t.metadata, ids),
       originals := Without(t.originals, ids),
       records := if dropRecords then RecordsWithout(t.records, ids) else t.records)
  }

  /** The loop gets through the list exactly when no image on it is held by a
      maintenance record (it always does when those records are dropped). */
  lemma {:induction false} ClearImagesSucceeds(t: Tables, ids: seq<nat>, dropRecords: bool)
    ensures ClearImages(t, ids, dropRecords).1 <==>
      dropRecords || forall j :: 0 <= j < |ids| ==> !RecordForImage(t.records, ids[j])
    decreases |ids|
  {
    if ids != [] {
      UnlinkedReferenced(t, ids[0], dropRecords);
      var (u, ok) := Cleared(t, ids[0], dropRecords);
      if ok {
        ClearImagesSucceeds(u, ids[1..], dropRecords);
        assert forall j :: 1 <= j < |ids| ==> ids[1..][j - 1] == ids[j];
      }
    }
  }

  lemma InIds(ids: seq<nat>)
    requires ids != []
    ensures forall x :: x in ids <==> x == ids[0] || x in ids[1..]
  {
    assert ids == [ids[0]] + ids[1..];
  }

  lemma WithoutStep<T>(m: map<nat, T>, ids: seq<nat>)
    requires ids != []
    ensures Without(m - {ids[0]}, ids[1..]) == Without(m, ids)
  {
    InIds(ids);
  }

  lemma RegionsWithoutStep(regions: map<nat, RegionRow>, ids: seq<nat>)
    requires ids != []
    ensures RegionsWithout(map k | k in regions && regions[k].image != Some(ids[0]) :: regions[k], ids[1..])
         == RegionsWithout(regions, ids)
  {
    InIds(ids);
  }

  lemma RecordsWithoutStep(records: map<nat, RecordRow>, ids: seq<nat>)
    requires ids != []
    ensures RecordsWithout(map k | k in records && records[k].maintenanceImage != ids[0] :: records[k], ids[1..])
         == RecordsWithout(records, ids)
  {
    InIds(ids);
  }

  lemma PurgedStep(t: Tables, ids: seq<nat>, dropRecords: bool)
    requires ids != []
    requires !ImageReferenced(Unlinked(t, ids[0], dropRecords), ids[0])
    ensures Purged(Cleared(t, ids[0], dropRecords).0, ids[1..], dropRecords) == Purged(t, ids, dropRecords)
  {
    WithoutStep(t.images, ids);
    WithoutStep(t.metadata, ids);
    WithoutStep(t.originals, ids);
    RegionsWithoutStep(t.regions, ids);
    RecordsWithoutStep(t.records, ids);
  }

  /** When the loop gets through, it has removed exactly the rows `Purged` names. */
  lemma {:induction false} ClearImagesPurges(t: Tables, ids: seq<nat>, dropRecords: bool)
    requires ClearImages(t, ids, dropRecords).1
    ensures ClearImages(t, ids, dropRecords).0 == Purged(t, ids, dropRecords)
    decreases |ids|
  {
    if ids == [] {
      var p := Purged(t, ids, dropRecords);
      assert p.images == t.images && p.regions == t.regions && p.metadata == t.metadata;
      assert p.originals == t.originals && p.records == t.records;
    } else {
      var (u, ok) := Cleared(t, ids[0], dropRecords);
      ClearImagesPurges(u, ids[1..], dropRecords);
      PurgedStep(t, ids, dropRecords);
    }
  }

  lemma WithoutMatches<T>(m: map<nat, T>, ids: seq<nat>, gone: set<nat>)
    requires forall x :: x in ids <==> x in gone
    ensures Without(m, ids) == m - gone
  {
  }

  lemma RegionsWithoutMatches(regions: map<nat, RegionRow>, ids: seq<nat>, gone: set<nat>)
    requires forall x :: x in ids <==> x in gone
    ensures RegionsWithout(regions, ids)
         == map k | k in regions && !(regions[k].image.Some? && regions[k].image.value in gone) :: regions[k]
  {
  }

  lemma RecordsWithoutMatches(records: map<nat, RecordRow>, inspectionId: nat, ids: seq<nat>, gone: set<nat>, dropRecords: bool)
    requires forall x :: x in ids <==> x in gone
    ensures var kept := map k | k in records && records[k].inspection != Some(inspectionId) :: records[k];
      (if dropRecords then RecordsWithout(kept, ids) else kept)
      == map k | k in records && records[k].inspection != Some(inspectionId)
                   && !(dropRecords && records[k].maintenanceImage in gone) :: records[k]
  {
  }

  /** The images the loop visits are exactly those of the inspection. */
  lemma ImagesOfGone(t: Tables, inspectionId: nat)
    requires ValidTables(t)
    ensures forall x :: x in ImagesOf(t.images, inspectionId, 0, t.nextId) <==> x in Gone(t, inspectionId)
  {
    forall x: nat | x in Gone(t, inspectionId)
      ensures x in ImagesOf(t.images, inspectionId, 0, t.nextId)
    {
      ImagesOfComplete(t.images, inspectionId, 0, t.nextId, x);
    }
  }

  /** With the checks passed and the loop through, the outcome is `Purge`. */
  lemma PurgeMatches(t: Tables, inspectionId: nat, dropRecords: bool)
    requires forall x :: x in ImagesOf(t.images, inspectionId, 0, t.nextId) <==> x in Gone(t, inspectionId)
    ensures var t1 := WithoutRecordsOf(t, inspectionId);
            Purged(t1, ImagesOf(t1.images, inspectionId, 0, t1.nextId), dropRecords).(inspections := t.inspections - {inspectionId})
            == Purge(t, inspectionId, dropRecords)
  {
    var t1 := WithoutRecordsOf(t, inspectionId);
    var ids := ImagesOf(t1.images, inspectionId, 0, t1.nextId);
    var gone := Gone(t, inspectionId);
    var lhs := Purged(t1, ids, dropRecords).(inspections := t.inspections - {inspectionId});
    var rhs := Purge(t, inspectionId, dropRecords);
    assert lhs.images == rhs.images by { WithoutMatches(t.images, ids, gone); }
    assert lhs.metadata == rhs.metadata by { WithoutMatches(t.metadata, ids, gone); }
    assert lhs.originals == rhs.originals by { WithoutMatches(t.originals, ids, gone); }
    assert lhs.regions == rhs.regions by { RegionsWithoutMatches(t.regions, ids, gone); }
    assert lhs.records == rhs.records by { RecordsWithoutMatches(t.records, inspectionId, ids, gone, dropRecords); }
  }

  /** A `Purge`d store holds nothing of the inspection any more. */
  lemma PurgeUnreferenced(t: Tables, inspectionId: nat, dropRecords: bool)
    ensures !InspectionReferenced(Purge(t, inspectionId, dropRecords), inspectionId)
  {
    var p := Purge(t, inspectionId, dropRecords);
    assert forall k :: k in p.images ==> p.images[k].inspection != Some(inspectionId);
    assert forall k :: k in p.records ==> p.records[k].inspection != Some(inspectionId);
  }

  /** As written, a `Blocked` inspection stops the loop at the image the
      offending record holds. */
  lemma CleanupBlocked(t: Tables, inspectionId: nat)
    requires ValidTables(t) && Blocked(t, inspectionId)
    ensures Cleanup(t, inspectionId, false).1 == Err(Internal)
  {
    var t1 := WithoutRecordsOf(t, inspectionId);
    var ids := ImagesOf(t1.images, inspectionId, 0, t1.nextId);
    ClearImagesSucceeds(t1, ids, false);
    ImagesOfGone(t, inspectionId);
    var k :| k in t.records && t.records[k].inspection != Some(inspectionId)
             && t.records[k].maintenanceImage in Gone(t, inspectionId);
    var j :| 0 <= j < |ids| && ids[j] == t.records[k].maintenanceImage;
    assert k in t1.records;
    assert RecordForImage(t1.records, ids[j]);
  }

  /** Otherwise the loop gets through and the outcome is `Purge`. */
  lemma CleanupPurges(t: Tables, inspectionId: nat, dropRecords: bool)
    requires ValidTables(t) && (dropRecords || !Blocked(t, inspectionId))
    ensures Cleanup(t, inspectionId, dropRecords) == (Purge(t, inspectionId, dropRecords), Ok(()))
  {
    var t1 := WithoutRecordsOf(t, inspectionId);
    var ids := ImagesOf(t1.images, inspectionId, 0, t1.nextId);
    ClearImagesSucceeds(t1, ids, dropRecords);
    ImagesOfGone(t, inspectionId);
    assert forall j :: 0 <= j < |ids| ==> dropRecords || !RecordForImage(t1.records, ids[j]);
    ClearImagesPurges(t1, ids, dropRecords);
    PurgeMatches(t, inspectionId, dropRecords);
    PurgeUnreferenced(t, inspectionId, dropRecords);
    var p := Purged(t1, ids, dropRecords);
    assert p.(inspections := t.inspections - {inspectionId}) == Purge(t, inspectionId, dropRecords);
    assert InspectionReferenced(p, inspectionId) == InspectionReferenced(Purge(t, inspectionId, dropRecords), inspectionId);
  }

  /** The delete of an inspection of the transformer either leaves exactly
      `Purge` behind and answers 204, or — exactly when the inspection is
      `Blocked` and the records that use its images are not dropped — fails
      with a 500 part way through. */
  lemma CascadeOutcome(t: Tables, transformerId: nat, inspectionId: nat, dropRecords: bool)
    requires ValidTables(t) && transformerId in t.transformers && inspectionId in t.inspections
    requires t.inspections[inspectionId].transformer == transformerId
    ensures Cascaded(t, transformerId, inspectionId, dropRecords).1.Ok? <==> dropRecords || !Blocked(t, inspectionId)
    ensures Cascaded(t, transformerId, inspectionId, dropRecords).1.Err? ==>
      Cascaded(t, transformerId, inspectionId, dropRecords).1 == Err(Internal)
    ensures Cascaded(t, transformerId, inspectionId, dropRecords).1.Ok? ==>
      Cascaded(t, transformerId, inspectionId, dropRecords).0 == Purge(t, inspectionId, dropRecords)
  {
    if !dropRecords && Blocked(t, inspectionId) {
      CleanupBlocked(t, inspectionId);
    } else {
      CleanupPurges(t, inspectionId, dropRecords);
    }
  }

  /** One image's pass of the loop on the store. */
  method ClearImage(db: Db, id: nat, dropRecords: bool) returns (ok: bool)
    requires db.Valid() && id in db.images
    modifies db`originals, db`regions, db`metadata, db`records, db`images
    ensures db.Valid()
    ensures (db.Snapshot(), ok) == Cleared(old(db.Snapshot()), id, dropRecords)
    ensures forall k :: k in old(db.images) && k != id ==> k in db.images
  {
    Unlink(db, id, dropRecords);
    ok := db.DeleteImage(id);
  }

  /** The clean-up of one image on the store. */
  method Unlink(db: Db, id: nat, dropRecords: bool)
    requires db.Valid()
    modifies db`originals, db`regions, db`metadata, db`records
    ensures db.Valid()
    ensures db.Snapshot() == Unlinked(old(db.Snapshot()), id, dropRecords)
  {
    ghost var u := Unlinked(db.Snapshot(), id, dropRecords);
    db.DeleteOriginalOfImage(id);
    db.DeleteRegionsOfImage(id);
    assert db.regions == u.regions;
    db.DeleteMetadataOfImage(id);
    if dropRecords {
      db.DeleteRecordsOfImage(id);
      assert db.records == u.records;
    }
  }

  /** The loop over the images of the inspection. */
  method ClearAll(db: Db, ids: seq<nat>, dropRecords: bool) returns (ok: bool)
    requires db.Valid()
    requires forall j :: 0 <= j < |ids| ==> ids[j] in db.images
    requires forall a, b :: 0 <= a < b < |ids| ==> ids[a] < ids[b]
    modifies db`originals, db`regions, db`metadata, db`records, db`images
    ensures db.Valid()
    ensures (db.Snapshot(), ok) == ClearImages(old(db.Snapshot()), ids, dropRecords)
  {
    ghost var t1 := db.Snapshot();
    var i := 0;
    while i < |ids|
      invariant 0 <= i <= |ids|
      invariant db.Valid()
      invariant forall j :: i <= j < |ids| ==> ids[j] in db.images
      invariant ClearImages(db.Snapshot(), ids[i..], dropRecords) == ClearImages(t1, ids, dropRecords)
    {
      assert ids[i..][0] == ids[i] && ids[i..][1..] == ids[i + 1..];
      ghost var before := db.images;
      ok := ClearImage(db, ids[i], dropRecords);
      forall j | i < j < |ids|
        ensures ids[j] in db.images
      {
        assert ids[j] in before && ids[i] < ids[j];
      }
      if !ok {
        return;
      }
      i := i + 1;
    }
    assert ids[i..] == [];
    ok := true;
  }

  /** The deletes after the checks. */
  method CleanupAll(db: Db, inspectionId: nat, dropRecords: bool) returns (res: Result<()>)
    requires db.Valid() && inspectionId in db.inspections
    modifies db`originals, db`regions, db`metadata, db`records, db`images, db`inspections
    ensures db.Valid()
    ensures (db.Snapshot(), res) == Cleanup(old(db.Snapshot()), inspectionId, dropRecords)
  {
    ghost var t0 := db.Snapshot();
    db.DeleteRecordsOfInspection(inspectionId);
    assert db.Snapshot() == WithoutRecordsOf(t0, inspectionId);
    var ids := ImagesOf(db.images, inspectionId, 0, db.nextId);
    var ok := ClearAll(db, ids, dropRecords);
    ghost var t2 := db.Snapshot();
    assert (t2, ok) == ClearImages(WithoutRecordsOf(t0, inspectionId), ids, dropRecords);
    if !ok {
      return Err(Internal);
    }
    ok := db.DeleteInspection(inspectionId);
    if !ok {
      return Err(Internal);
    }
    return Ok(());
  }

  /** The delete endpoint, with or without dropping the maintenance records
      that use the inspection's images. */
  method Cascade(db: Db, transformerId: nat, inspectionId: nat, dropRecords: bool) returns (res: Result<()>)
    requires db.Valid()
    modifies db`originals, db`regions, db`metadata, db`records, db`images, db`inspections
    ensures db.Valid()
    ensures (db.Snapshot(), res) == Cascaded(old(db.Snapshot()), transformerId, inspectionId, dropRecords)
  {
    if transformerId !in db.transformers || inspectionId !in db.inspections {
      return Err(NotFound);
    }
    if db.inspections[inspectionId].transformer != transformerId {
      return Err(BadRequest);
    }
    res := CleanupAll(db, inspectionId, dropRecords);
  }

  /** `deleteInspection` as written. */
  method DeleteInspection(db: Db, transformerId: nat, inspectionId: nat) returns (res: Result<()>)
    requires db.Valid()
    modifies db`originals, db`regions, db`metadata, db`records, db`images, db`inspections
    ensures db.Valid()
    ensures (db.Snapshot(), res) == Cascaded(old(db.Snapshot()), transformerId, inspectionId, false)
  {
    res := Cascade(db, transformerId, inspectionId, false);
  }

  /** `deleteInspection` with the maintenance record of each image dropped
      before the image (`findByMaintenanceImageId` then `delete`). */
  method DeleteInspectionFixed(db: Db, transformerId: nat, inspectionId: nat) returns (res: Result<()>)
    requires db.Valid()
    modifies db`originals, db`regions, db`metadata, db`records, db`images, db`inspections
    ensures db.Valid()
    ensures (db.Snapshot(), res) == Cascaded(old(db.Snapshot()), transformerId, inspectionId, true)
  {
    res := Cascade(db, transformerId, inspectionId, true);
  }

  /** As written, a delete that passes its checks succeeds exactly when the
      inspection is not `Blocked`. */
  lemma AsWrittenSucceedsIff(t: Tables, transformerId: nat, inspectionId: nat)
    requires ValidTables(t) && transformerId in t.transformers && inspectionId in t.inspections
    requires t.inspections[inspectionId].transformer == transformerId
    ensures Cascaded(t, transformerId, inspectionId, false).1.Ok? <==> !Blocked(t, inspectionId)
    ensures !Blocked(t, inspectionId) ==> Cascaded(t, transformerId, inspectionId, false).0 == Purge(t, inspectionId, false)
  {
    CascadeOutcome(t, transformerId, inspectionId, false);
  }

  /** With the records dropped, a delete that passes its checks always
      succeeds and leaves exactly `Purge` behind. */
  lemma FixedCascadeCleans(t: Tables, transformerId: nat, inspectionId: nat)
    requires ValidTables(t) && transformerId in t.transformers && inspectionId in t.inspections
    requires t.inspections[inspectionId].transformer == transformerId
    ensures Cascaded(t, transformerId, inspectionId, true) == (Purge(t, inspectionId, true), Ok(()))
  {
    CascadeOutcome(t, transformerId, inspectionId, true);
  }

  /** A store the schema accepts in which deleting inspection 1 fails part
      way: its image 3 is the maintenance image of a record filed under
      inspection 2, so the image survives while its display metadata is
      already gone. */
  function BlockedExample(): Tables
  {
    Tables(
      transformers := map[0 := Transformer("TX-1", "P-1", "North", "Bulk")],
      inspections := map[1 := Inspection(0, "first", "A", None, Open, 0),
                         2 := Inspection(0, "second", "B", None, Open, 0)],
      images := map[3 := Image(3, 0, Some(1), Maintenance, None, "A", "f.png", "image/png", 1, "p", 0)],
      regions := map[],
      metadata := map[3 := DisplayMetadata(map[], None)],
      originals := map[],
      records := map[4 := RecordRow(0, Some(2), 3, None, None, None, map[], None, None, None, None)],
      users := map[], questions := map[], configs := map[],
      nextId := 5)
  }

  lemma BlockedExampleBlocked()
    ensures ValidTables(BlockedExample()) && Blocked(BlockedExample(), 1)
  {
    var t := BlockedExample();
    assert 3 in Gone(t, 1);
    assert 4 in t.records && t.records[4].inspection != Some(1);
  }

  lemma BlockedExampleImages()
    ensures ImagesOf(BlockedExample().images, 1, 0, 5) == [3]
  {
    var images := BlockedExample().images;
    assert ImagesOf(images, 1, 4, 5) == [];
    assert ImagesOf(images, 1, 3, 5) == [3];
    assert ImagesOf(images, 1, 2, 5) == [3];
    assert ImagesOf(images, 1, 1, 5) == [3];
  }

  lemma BlockedDeleteExample()
    ensures ValidTables(BlockedExample()) && Blocked(BlockedExample(), 1)
    ensures Cascaded(BlockedExample(), 0, 1, false).1 == Err(Internal)
    ensures 3 in Cascaded(BlockedExample(), 0, 1, false).0.images
    ensures 3 !in Cascaded(BlockedExample(), 0, 1, false).0.metadata
    ensures 1 in Cascaded(BlockedExample(), 0, 1, false).0.inspections
  {
    var t := BlockedExample();
    BlockedExampleBlocked();
    BlockedExampleImages();
    assert WithoutRecordsOf(t, 1).records == t.records;
    assert WithoutRecordsOf(t, 1) == t;
    assert RecordForImage(t.records, 3);
    UnlinkedReferenced(t, 3, false);
    var u := Unlinked(t, 3, false);
    assert Cleared(t, 3, false) == (u, false);
    assert ClearImages(t, [3], false) == (u, false);
    assert u.metadata == map[];
  }
}
