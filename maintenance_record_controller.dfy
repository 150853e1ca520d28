/** Maintenance records: the form that gathers what an engineer needs to
    write one, and the create and update endpoints. Only a signed-in
    maintenance engineer may write; each maintenance image carries at most
    one record; update patches the fields the request supplies. */
module MaintenanceRecordController {
  import opened Common
  import opened Entities
  import opened Database
  import opened FaultRegionDto
  import opened ImageErrorAnnotationController
  import ImageUpload
  import Seqs
  import Sorting

  /** The role guard of both write endpoints. */
  predicate MayWrite(current: Option<SessionUser>)
  {
    current.Some? && current.value.occupation == MaintenanceEngineer
  }

  // ---------------------------------------------------------------------
  // Create

  /** The create request; the fields that validation declares non-null are
      plain values. */
  datatype CreateBody = CreateBody(
    transformerId: nat, inspectionId: Option<nat>, maintenanceImageId: nat,
    inspectionTimestamp: Option<Time>, inspectorName: Option<string>, status: MaintenanceStatus,
    electricalReadings: Option<map<string, string>>,
    recommendedAction: Option<string>, additionalRemarks: Option<string>)

  /** The checks of create that come before the conflict test. */
  predicate CreateChecksPass(t: Tables, current: Option<SessionUser>, transformerId: nat, body: CreateBody)
  {
    MayWrite(current) && transformerId == body.transformerId
    && transformerId in t.transformers && body.maintenanceImageId in t.images
    && t.images[body.maintenanceImageId].transformer == transformerId
    && t.images[body.maintenanceImageId].imageType == Maintenance
    && (body.inspectionId.Some? ==>
          body.inspectionId.value in t.inspections
          && t.inspections[body.inspectionId.value].transformer == transformerId)
  }

  /** The timestamp a new record carries: the requested one, else the
      creation time of the linked inspection, else that of the image. */
  function DefaultTimestamp(t: Tables, requested: Option<Time>, inspection: Option<nat>, image: Image): (ts: Time)
    ensures requested.Some? ==> ts == requested.value
    ensures requested.None? && inspection.Some? && inspection.value in t.inspections ==>
      ts == t.inspections[inspection.value].createdAt
    ensures requested.None? && (inspection.None? || inspection.value !in t.inspections) ==> ts == image.createdAt
  {
    match requested
    case Some(v) => v
    case None =>
      if inspection.Some? && inspection.value in t.inspections then t.inspections[inspection.value].createdAt
      else image.createdAt
  }

  /** What create decides before saving: the first failing check, or the
      row to save. */
  function CreateOutcome(t: Tables, current: Option<SessionUser>, transformerId: nat, body: CreateBody, now: Time)
    : (r: Result<RecordRow>)
    ensures !MayWrite(current) ==> r == Err(Forbidden)
    ensures MayWrite(current) && transformerId != body.transformerId ==> r == Err(BadRequest)
    ensures MayWrite(current) && transformerId == body.transformerId ==>
      && (transformerId !in t.transformers ==> r == Err(NotFound))
      && (transformerId in t.transformers && body.maintenanceImageId !in t.images ==> r == Err(NotFound))
      && ((transformerId in t.transformers && body.maintenanceImageId in t.images
           && (t.images[body.maintenanceImageId].transformer != transformerId
               || t.images[body.maintenanceImageId].imageType != Maintenance)) ==> r == Err(BadRequest))
    ensures r.Ok? <==> CreateChecksPass(t, current, transformerId, body)
                       && !RecordForImage(t.records, body.maintenanceImageId)
    ensures CreateChecksPass(t, current, transformerId, body) && RecordForImage(t.records, body.maintenanceImageId)
      ==> r == Err(Conflict)
    ensures r.Ok? ==>
      var image := t.images[body.maintenanceImageId];
      && r.value.transformer == transformerId
      && r.value.maintenanceImage == body.maintenanceImageId
      // an explicit inspection is kept, otherwise the image's is inherited
      && r.value.inspection == (if body.inspectionId.Some? then body.inspectionId else image.inspection)
      && r.value.inspectionTimestamp == Some(DefaultTimestamp(t, body.inspectionTimestamp, r.value.inspection, image))
      && r.value.inspectorName == body.inspectorName && r.value.status == Some(body.status)
      && r.value.electricalReadings == body.electricalReadings.GetOr(map[])
      && r.value.recommendedAction == body.recommendedAction
      && r.value.additionalRemarks == body.additionalRemarks
      && r.value.createdAt == Some(now) && r.value.updatedAt == Some(now)
  {
    if !MayWrite(current) then Err(Forbidden)
    else if transformerId != body.transformerId then Err(BadRequest)
    else if transformerId !in t.transformers then Err(NotFound)
    else if body.maintenanceImageId !in t.images then Err(NotFound)
    else
      var image := t.images[body.maintenanceImageId];
      if image.transformer != transformerId then Err(BadRequest)
      else if image.imageType != Maintenance then Err(BadRequest)
      else if body.inspectionId.Some? && body.inspectionId.value !in t.inspections then Err(NotFound)
      else if body.inspectionId.Some? && t.inspections[body.inspectionId.value].transformer != transformerId then
        Err(BadRequest)
      else if RecordForImage(t.records, body.maintenanceImageId) then Err(Conflict)
      else
        var inspection := if body.inspectionId.Some? then body.inspectionId else image.inspection;
        Ok(RecordRow(transformerId, inspection, body.maintenanceImageId,
                     Some(DefaultTimestamp(t, body.inspectionTimestamp, inspection, image)),
                     body.inspectorName, Some(body.status), body.electricalReadings.GetOr(map[]),
                     body.recommendedAction, body.additionalRemarks, Some(now), Some(now)))
  }

  /** `createMaintenanceRecord`: the checks, then the insert; the store
      refuses a row whose remarks exceed their columns, and the request then
      fails with a 500. */
  method CreateRecord(db: Db, current: Option<SessionUser>, transformerId: nat, body: CreateBody, now: Time)
    returns (res: Result<(nat, RecordRow)>)
    requires db.Valid()
    modifies db`records, db`nextId
    ensures db.Valid()
    ensures var out := CreateOutcome(old(db.Snapshot()), current, transformerId, body, now);
      if out.Ok? && RecordColumnsOk(out.value) then
        res == Ok((old(db.nextId), out.value)) && old(db.nextId) !in old(db.records)
        && db.records == old(db.records)[old(db.nextId) := out.value]
      else
        res == Err(if out.Err? then out.error else Internal)
        && db.records == old(db.records) && db.nextId == old(db.nextId)
  {
    var out := CreateOutcome(db.Snapshot(), current, transformerId, body, now);
    if out.Err? {
      return Err(out.error);
    }
    var row := out.value;
    assert RecordAcceptable(db.records, db.nextId, row) <==> RecordColumnsOk(row) by {
      assert !RecordForImage(db.records, body.maintenanceImageId);
    }
    var ok, id := db.InsertRecord(row);
    if !ok {
      return Err(Internal);
    }
    return Ok((id, row));
  }

  /** Once an image has a record, a second create for it is refused with 409,
      whatever else the request says. */
  lemma SecondCreateConflicts(t: Tables, current: Option<SessionUser>, transformerId: nat, body: CreateBody,
                              now: Time, id: nat, row: RecordRow, body2: CreateBody, later: Time)
    requires CreateOutcome(t, current, transformerId, body, now) == Ok(row)
    requires body2.maintenanceImageId == body.maintenanceImageId
    requires CreateChecksPass(t, current, transformerId, body2)
    ensures CreateOutcome(t.(records := t.records[id := row], nextId := id + 1), current, transformerId, body2, later)
      == Err(Conflict)
  {
    var t2 := t.(records := t.records[id := row], nextId := id + 1);
    assert id in t2.records && t2.records[id].maintenanceImage == body2.maintenanceImageId;
    assert CreateChecksPass(t2, current, transformerId, body2);
  }

  // ---------------------------------------------------------------------
  // Update

  /** The update request: every field but the id may be absent. */
  datatype UpdateBody = UpdateBody(
    id: nat, inspectionId: Option<nat>, inspectionTimestamp: Option<Time>, inspectorName: Option<string>,
    status: Option<MaintenanceStatus>, electricalReadings: Option<map<string, string>>,
    recommendedAction: Option<string>, additionalRemarks: Option<string>)

  /** The record once the supplied fields are applied and the update time refreshed. */
  function Patched(r: RecordRow, body: UpdateBody, now: Time): (p: RecordRow)
    // the owner, the image and the creation time are never touched
    ensures p.transformer == r.transformer && p.maintenanceImage == r.maintenanceImage
    ensures p.createdAt == r.createdAt && p.updatedAt == Some(now)
    // a field the request supplies takes the supplied value, one it leaves out keeps its value
    ensures p.inspection == (if body.inspectionId.Some? then body.inspectionId else r.inspection)
    ensures p.inspectionTimestamp ==
      (if body.inspectionTimestamp.Some? then body.inspectionTimestamp else r.inspectionTimestamp)
    ensures p.inspectorName == (if body.inspectorName.Some? then body.inspectorName else r.inspectorName)
    ensures p.status == (if body.status.Some? then body.status else r.status)
    ensures p.electricalReadings == body.electricalReadings.GetOr(r.electricalReadings)
    ensures p.recommendedAction ==
      (if body.recommendedAction.Some? then body.recommendedAction else r.recommendedAction)
    ensures p.additionalRemarks ==
      (if body.additionalRemarks.Some? then body.additionalRemarks else r.additionalRemarks)
  {
    r.(inspection := if body.inspectionId.Some? then body.inspectionId else r.inspection,
       inspectionTimestamp := if body.inspectionTimestamp.Some? then body.inspectionTimestamp else r.inspectionTimestamp,
       inspectorName := if body.inspectorName.Some? then body.inspectorName else r.inspectorName,
       status := if body.status.Some? then body.status else r.status,
       electricalReadings := body.electricalReadings.GetOr(r.electricalReadings),
       recommendedAction := if body.recommendedAction.Some? then body.recommendedAction else r.recommendedAction,
       additionalRemarks := if body.additionalRemarks.Some? then body.additionalRemarks else r.additionalRemarks,
       updatedAt := Some(now))
  }

  /** A request that supplies nothing only refreshes the update time. */
  lemma EmptyPatchTouchesOnlyUpdatedAt(r: RecordRow, id: nat, now: Time)
    ensures Patched(r, UpdateBody(id, None, None, None, None, None, None, None), now) == r.(updatedAt := Some(now))
  {
  }

  /** Applying the same request twice is applying it once. */
  lemma PatchIdempotent(r: RecordRow, body: UpdateBody, now: Time)
    ensures Patched(Patched(r, body, now), body, now) == Patched(r, body, now)
  {
  }

  /** The checks of update, giving the stored row when they pass. The
      transformer of an inspection is never null here, so this accepts the
      same inspections as create. */
  function UpdateChecked(t: Tables, current: Option<SessionUser>, recordId: nat, body: UpdateBody)
    : (r: Result<RecordRow>)
    ensures !MayWrite(current) ==> r == Err(Forbidden)
    ensures MayWrite(current) && recordId != body.id ==> r == Err(BadRequest)
    ensures MayWrite(current) && recordId == body.id && recordId !in t.records ==> r == Err(NotFound)
    ensures r.Ok? <==>
      MayWrite(current) && recordId == body.id && recordId in t.records
      && (body.inspectionId.Some? ==>
            body.inspectionId.value in t.inspections
            && t.inspections[body.inspectionId.value].transformer == t.records[recordId].transformer)
    ensures r.Ok? ==> r.value == t.records[recordId]
  {
    if !MayWrite(current) then Err(Forbidden)
    else if recordId != body.id then Err(BadRequest)
    else if recordId !in t.records then Err(NotFound)
    else
      var rec := t.records[recordId];
      if body.inspectionId.Some? && body.inspectionId.value !in t.inspections then Err(NotFound)
      else if body.inspectionId.Some? && t.inspections[body.inspectionId.value].transformer != rec.transformer then
        Err(BadRequest)
      else Ok(rec)
  }

  /** The setters update applies to the loaded entity: one per supplied
      field, then the update time. */
  method ApplyPatch(rec: MaintenanceRecord, body: UpdateBody, now: Time)
    modifies rec
    ensures rec.Data() == Patched(old(rec.Data()), body, now)
  {
    if body.inspectionId.Some? {
      rec.SetInspection(body.inspectionId);
    }
    if body.inspectionTimestamp.Some? {
      rec.SetInspectionTimestamp(body.inspectionTimestamp);
    }
    if body.inspectorName.Some? {
      rec.SetInspectorName(body.inspectorName);
    }
    if body.status.Some? {
      rec.SetStatus(body.status);
    }
    if body.electricalReadings.Some? {
      rec.SetElectricalReadings(body.electricalReadings.value);
    }
    if body.recommendedAction.Some? {
      rec.SetRecommendedAction(body.recommendedAction);
    }
    if body.additionalRemarks.Some? {
      rec.SetAdditionalRemarks(body.additionalRemarks);
    }
    rec.SetUpdatedAt(Some(now));
  }

  /** `updateMaintenanceRecord`: the loaded entity receives one setter per
      supplied field and a fresh update time, then is saved. */
  method UpdateRecord(db: Db, current: Option<SessionUser>, recordId: nat, body: UpdateBody, now: Time)
    returns (res: Result<RecordRow>)
    requires db.Valid()
    modifies db`records
    ensures db.Valid()
    ensures var chk := UpdateChecked(old(db.Snapshot()), current, recordId, body);
      if chk.Ok? && RecordColumnsOk(Patched(chk.value, body, now)) then
        res == Ok(Patched(chk.value, body, now))
        && db.records == old(db.records)[recordId := Patched(chk.value, body, now)]
      else
        res == Err(if chk.Err? then chk.error else Internal) && db.records == old(db.records)
  {
    var chk := UpdateChecked(db.Snapshot(), current, recordId, body);
    if chk.Err? {
      return Err(chk.error);
    }
    var rec := new MaintenanceRecord.Build(chk.value);
    ApplyPatch(rec, body, now);
    var row := rec.Data();
    assert row == Patched(chk.value, body, now);
    assert RecordAcceptable(db.records, recordId, row) <==> RecordColumnsOk(row) by {
      assert forall k :: k in db.records && k != recordId ==> db.records[k].maintenanceImage != row.maintenanceImage;
    }
    var ok := db.UpdateRecord(recordId, row);
    if !ok {
      return Err(Internal);
    }
    return Ok(row);
  }

  // ---------------------------------------------------------------------
  // Form

  /** The maintenance images of a transformer, of one inspection when given. */
  function MaintenanceOf(transformerId: nat, inspection: Option<nat>): Image -> bool
  {
    (im: Image) => im.transformer == transformerId && im.imageType == Maintenance
                   && (inspection.None? || im.inspection == inspection)
  }

  /** The form's image query, newest first. */
  function MaintenanceImages(t: Tables, transformerId: nat, inspection: Option<nat>): seq<Image>
  {
    Sorting.SortBy(Seqs.Filter(Rows(t.images, 0, t.nextId), MaintenanceOf(transformerId, inspection)),
                   ImageUpload.NewestKey)
  }

  /** The first key in `[lo, hi)` holding the record of an image (`findByMaintenanceImageId`). */
  function RecordOf(records: map<nat, RecordRow>, image: nat, lo: nat, hi: nat): (r: Option<nat>)
    ensures r.Some? ==> lo <= r.value < hi && r.value in records && records[r.value].maintenanceImage == image
    ensures r.None? ==> forall k :: lo <= k < hi && k in records ==> records[k].maintenanceImage != image
    decreases hi - lo
  {
    if lo >= hi then None
    else if lo in records && records[lo].maintenanceImage == image then Some(lo)
    else RecordOf(records, image, lo + 1, hi)
  }

  /** The image the form shows and the inspection it links, or the reason
      there is none. */
  function Selection(t: Tables, transformerId: nat, inspectionId: Option<nat>, imageId: Option<nat>)
    : (r: Result<(Image, Option<nat>)>)
    ensures transformerId !in t.transformers ==> r == Err(NotFound)
    ensures r.Ok? && imageId.Some? ==> imageId.value in t.images && r.value.0 == t.images[imageId.value]
    ensures r.Ok? ==> r.value.0.transformer == transformerId && r.value.0.imageType == Maintenance
    // the inspection is the requested one, or else the image's own
    ensures r.Ok? ==> r.value.1 == (if inspectionId.Some? then inspectionId else r.value.0.inspection)
    ensures r.Ok? && inspectionId.Some? ==>
      inspectionId.value in t.inspections && t.inspections[inspectionId.value].transformer == transformerId
  {
    if transformerId !in t.transformers then Err(NotFound)
    else if inspectionId.Some? && inspectionId.value !in t.inspections then Err(NotFound)
    else if inspectionId.Some? && t.inspections[inspectionId.value].transformer != transformerId then Err(BadRequest)
    else if imageId.Some? then
      if imageId.value !in t.images then Err(NotFound)
      else
        var im := t.images[imageId.value];
        if im.transformer != transformerId then Err(BadRequest)
        else if im.imageType != Maintenance then Err(BadRequest)
        else Ok((im, if inspectionId.Some? then inspectionId else im.inspection))
    else
      var candidates := MaintenanceImages(t, transformerId, inspectionId);
      if candidates == [] then Err(BadRequest)
      else
        var im := candidates[0];
        assert MaintenanceOf(transformerId, inspectionId)(im) by {
          ImageUpload.SortedMembers(Seqs.Filter(Rows(t.images, 0, t.nextId), MaintenanceOf(transformerId, inspectionId)));
        }
        Ok((im, if inspectionId.Some? then inspectionId else im.inspection))
  }

  /** The form: the transformer, the linked inspection, the image, its
      regions by region id, its box colours, the statuses to choose from and
      the record already written for the image. */
  datatype Form = Form(
    transformerId: nat, transformer: Transformer, inspection: Option<(nat, Inspection)>,
    image: ImageUpload.ImageView, anomalies: seq<RegionView>, boxColors: map<string, string>,
    allowedStatuses: seq<MaintenanceStatus>, existingRecord: Option<(nat, RecordRow)>)

  const AllStatuses: seq<MaintenanceStatus> := [AllOk, NeedsMaintenance, UrgentAttention]

  /** `getMaintenanceRecordForm`. */
  function GetForm(t: Tables, transformerId: nat, inspectionId: Option<nat>, imageId: Option<nat>): (r: Result<Form>)
    ensures r.Err? <==> Selection(t, transformerId, inspectionId, imageId).Err?
    ensures r.Ok? ==>
      var im := Selection(t, transformerId, inspectionId, imageId).value.0;
      && r.value.image == ImageUpload.ViewOf(im)
      && r.value.anomalies == FromEntities(ByRegionId(t.regions, t.nextId, im.id))
      && (r.value.existingRecord.Some? ==>
            r.value.existingRecord.value.0 in t.records
            && r.value.existingRecord.value.1 == t.records[r.value.existingRecord.value.0]
            && r.value.existingRecord.value.1.maintenanceImage == im.id)
      && (r.value.existingRecord.None? && KeysBelow(t.records, t.nextId) ==> !RecordForImage(t.records, im.id))
      && r.value.allowedStatuses == AllStatuses
  {
    match Selection(t, transformerId, inspectionId, imageId)
    case Err(e) => Err(e)
    case Ok((im, inspection)) =>
      var linked := if inspection.Some? && inspection.value in t.inspections
                    then Some((inspection.value, t.inspections[inspection.value])) else None;
      var colors := if im.id in t.metadata then t.metadata[im.id].boxColors else map[];
      var existing := match RecordOf(t.records, im.id, 0, t.nextId)
                      case None => None
                      case Some(k) => Some((k, t.records[k]));
      Ok(Form(transformerId, t.transformers[transformerId], linked, ImageUpload.ViewOf(im),
              FromEntities(ByRegionId(t.regions, t.nextId, im.id)), colors, AllStatuses, existing))
  }

  /** The form's query returns exactly the stored maintenance images of the
      transformer (of the inspection when one is given). */
  lemma MaintenanceImagesMembers(t: Tables, transformerId: nat, inspection: Option<nat>)
    requires ValidTables(t)
    ensures forall im :: im in MaintenanceImages(t, transformerId, inspection) <==>
      im.id in t.images && t.images[im.id] == im && MaintenanceOf(transformerId, inspection)(im)
  {
    var rows := Rows(t.images, 0, t.nextId);
    ImageUpload.SortedMembers(Seqs.Filter(rows, MaintenanceOf(transformerId, inspection)));
    forall im
      ensures im in MaintenanceImages(t, transformerId, inspection) <==>
        im.id in t.images && t.images[im.id] == im && MaintenanceOf(transformerId, inspection)(im)
    {
      RowsMembers(t.images, 0, t.nextId, im);
      if im in Seqs.Filter(rows, MaintenanceOf(transformerId, inspection)) {
        var k :| k in t.images && 0 <= k < t.nextId && t.images[k] == im;
        assert t.images[k].id == k;
      }
    }
  }

  /** Without an explicit image the form shows the newest maintenance image
      (of the inspection when one is given); it refuses with 400 exactly when
      there is none. */
  lemma FormShowsNewest(t: Tables, transformerId: nat, inspectionId: Option<nat>)
    requires ValidTables(t) && transformerId in t.transformers
    requires inspectionId.Some? ==>
      inspectionId.value in t.inspections && t.inspections[inspectionId.value].transformer == transformerId
    ensures Selection(t, transformerId, inspectionId, None) == Err(BadRequest) <==>
      forall k :: k in t.images ==> !MaintenanceOf(transformerId, inspectionId)(t.images[k])
    ensures Selection(t, transformerId, inspectionId, None).Ok? ==>
      var im := Selection(t, transformerId, inspectionId, None).value.0;
      && im.id in t.images && t.images[im.id] == im
      && (inspectionId.Some? ==> im.inspection == inspectionId)
      && forall k :: k in t.images && MaintenanceOf(transformerId, inspectionId)(t.images[k]) ==>
           t.images[k].createdAt <= im.createdAt
  {
    var cs := MaintenanceImages(t, transformerId, inspectionId);
    MaintenanceImagesMembers(t, transformerId, inspectionId);
    ImageUpload.SortedMembers(Seqs.Filter(Rows(t.images, 0, t.nextId), MaintenanceOf(transformerId, inspectionId)));
    if cs == [] {
      forall k | k in t.images
        ensures !MaintenanceOf(transformerId, inspectionId)(t.images[k])
      {
        assert t.images[k].id == k;
      }
    } else {
      assert cs[0] in cs;
      forall k | k in t.images && MaintenanceOf(transformerId, inspectionId)(t.images[k])
        ensures t.images[k].createdAt <= cs[0].createdAt
      {
        assert t.images[k].id == k;
        Sorting.SortedFirstLeast(cs, ImageUpload.NewestKey, t.images[k]);
      }
    }
  }

  /** The form lists the record already written for its image, if any. */
  lemma FormShowsExistingRecord(t: Tables, transformerId: nat, inspectionId: Option<nat>, imageId: Option<nat>)
    requires ValidTables(t) && GetForm(t, transformerId, inspectionId, imageId).Ok?
    ensures var f := GetForm(t, transformerId, inspectionId, imageId).value;
      f.existingRecord.Some? <==> RecordForImage(t.records, f.image.id)
  {
    var im := Selection(t, transformerId, inspectionId, imageId).value.0;
    var f := GetForm(t, transformerId, inspectionId, imageId).value;
    assert f.image.id == im.id;
  }
}
