/** The image upload and listing endpoints of a transformer. An upload is
    validated, stored as an image row and, for a maintenance image of a
    transformer that has a baseline, sent to the detector together with the
    newest baseline; the reply is then ingested. Both upload endpoints share
    this logic and differ only in whether the reply is kept verbatim. */
module ImageUpload {
  import opened Common
  import opened Json
  import opened Entities
  import opened FaultRegionModel
  import opened Database
  import opened DetectorIngestion
  import ImageAnomalyController
  import ClassificationTraining
  import AnomalyDetection
  import Seqs
  import Sorting

  /** The "meta" part of the multipart request. */
  datatype UploadMeta = UploadMeta(
    imageType: ImageType, envCondition: Option<EnvCondition>, uploader: string, inspectionId: Option<nat>)

  /** What the upload reads of the "file" part. */
  datatype FilePart = FilePart(originalFilename: Option<string>, contentType: Option<string>, size: int)

  /** The image as the endpoints return it. */
  datatype ImageView = ImageView(
    id: nat, imageType: ImageType, uploader: string, envCondition: Option<EnvCondition>,
    filename: string, createdAt: Time, contentType: string, sizeBytes: int, inspectionId: Option<nat>)

  /** The saved image, and the parsed detector reply when detection ran and succeeded. */
  datatype UploadResponse = UploadResponse(image: ImageView, anomalyResult: Option<Json>)

  const DefaultFilename: string := "upload.bin"
  const OctetStream: string := "application/octet-stream"

  /** The requirements an upload has to meet: an existing transformer; a
      weather reading for a baseline; an existing inspection of the same
      transformer for a maintenance image. */
  predicate Acceptable(t: Tables, transformerId: nat, meta: UploadMeta)
  {
    && transformerId in t.transformers
    && (meta.imageType == Baseline ==> meta.envCondition.Some? && meta.envCondition.value.weather.Some?)
    && (meta.imageType == Maintenance ==>
          meta.inspectionId.Some? && meta.inspectionId.value in t.inspections
          && t.inspections[meta.inspectionId.value].transformer == transformerId)
  }

  /** The checks in front of the upload, in the order the endpoint makes them,
      yielding the inspection the image is linked to. */
  function UploadInspection(t: Tables, transformerId: nat, meta: UploadMeta): (r: Result<Option<nat>>)
    ensures r.Ok? <==> Acceptable(t, transformerId, meta)
    ensures r.Ok? ==> r.value == if meta.imageType == Maintenance then meta.inspectionId else None
    ensures transformerId !in t.transformers ==> r == Err(NotFound)
    ensures r.Err? ==> r.error == NotFound || r.error == BadRequest
    ensures r == Err(NotFound) <==>
      transformerId !in t.transformers
      || (meta.imageType == Maintenance && meta.inspectionId.Some? && meta.inspectionId.value !in t.inspections)
  {
    if transformerId !in t.transformers then Err(NotFound)
    else if meta.imageType == Baseline then
      if meta.envCondition.None? || meta.envCondition.value.weather.None? then Err(BadRequest) else Ok(None)
    else if meta.inspectionId.None? then Err(BadRequest)
    else if meta.inspectionId.value !in t.inspections then Err(NotFound)
    else if t.inspections[meta.inspectionId.value].transformer != transformerId then Err(BadRequest)
    else Ok(meta.inspectionId)
  }

  /** The image row before the store assigns its id. The creation time the
      row gets is `storedAt`, the value the database gives the column: the
      entity's own value is not part of the insert. */
  function NewImage(transformerId: nat, inspection: Option<nat>, meta: UploadMeta, file: FilePart,
                    storagePath: string, storedAt: Time): (im: Image)
    ensures im.envCondition.Some? ==> meta.imageType == Baseline
    ensures im.transformer == transformerId && im.inspection == inspection && im.createdAt == storedAt
    ensures file.originalFilename.Some? ==> im.filename == file.originalFilename.value
    ensures file.contentType.Some? ==> im.contentType == file.contentType.value
  {
    Image(0, transformerId, inspection, meta.imageType,
          if meta.imageType == Baseline then meta.envCondition else None,
          meta.uploader, file.originalFilename.GetOr(DefaultFilename),
          file.contentType.GetOr(OctetStream), file.size, storagePath, storedAt)
  }

  /** The image as a response entry. */
  function ViewOf(im: Image): (v: ImageView)
    ensures v.id == im.id && v.inspectionId == im.inspection
  {
    ImageView(im.id, im.imageType, im.uploader, im.envCondition, im.filename, im.createdAt,
              im.contentType, im.sizeBytes, im.inspection)
  }

  /** The order of `...OrderByCreatedAtDesc`: newest first; rows created at the
      same instant stay in key order. */
  function NewestKey(im: Image): Sorting.Key
  {
    (-im.createdAt, 0)
  }

  function OfTransformer(transformerId: nat): Image -> bool
  {
    (im: Image) => im.transformer == transformerId
  }

  function BaselineOf(transformerId: nat): Image -> bool
  {
    (im: Image) => im.transformer == transformerId && im.imageType == Baseline
  }

  /** `findByTransformerIdOrderByCreatedAtDesc`. */
  function TransformerImages(t: Tables, transformerId: nat): seq<Image>
  {
    Sorting.SortBy(Seqs.Filter(Rows(t.images, 0, t.nextId), OfTransformer(transformerId)), NewestKey)
  }

  /** `findByTransformerIdAndImageTypeOrderByCreatedAtDesc(id, BASELINE)`. */
  function Baselines(t: Tables, transformerId: nat): seq<Image>
  {
    Sorting.SortBy(Seqs.Filter(Rows(t.images, 0, t.nextId), BaselineOf(transformerId)), NewestKey)
  }

  /** Sorting keeps exactly the rows it is given. */
  lemma SortedMembers(s: seq<Image>)
    ensures forall x :: x in Sorting.SortBy(s, NewestKey) <==> x in s
    ensures Sorting.SortedBy(Sorting.SortBy(s, NewestKey), NewestKey)
  {
    Sorting.SortByCorrect(s, NewestKey);
    forall x
      ensures x in Sorting.SortBy(s, NewestKey) <==> x in s
    {
      assert x in Sorting.SortBy(s, NewestKey) <==> x in multiset(Sorting.SortBy(s, NewestKey));
      assert x in s <==> x in multiset(s);
    }
  }

  /** The baseline query returns exactly the stored baselines of the transformer. */
  lemma BaselinesMembers(t: Tables, transformerId: nat)
    requires ValidTables(t)
    ensures forall im :: im in Baselines(t, transformerId) <==>
      im.id in t.images && t.images[im.id] == im && im.transformer == transformerId && im.imageType == Baseline
  {
    var rows := Rows(t.images, 0, t.nextId);
    SortedMembers(Seqs.Filter(rows, BaselineOf(transformerId)));
    forall im
      ensures im in Baselines(t, transformerId) <==>
        im.id in t.images && t.images[im.id] == im && im.transformer == transformerId && im.imageType == Baseline
    {
      RowsMembers(t.images, 0, t.nextId, im);
    }
  }

  /** Detection pairs the upload with the newest baseline of its transformer:
      no stored baseline of that transformer is more recent. */
  lemma NewestBaseline(t: Tables, transformerId: nat, k: nat)
    requires ValidTables(t) && Baselines(t, transformerId) != []
    requires k in t.images && t.images[k].transformer == transformerId && t.images[k].imageType == Baseline
    ensures var b := Baselines(t, transformerId)[0];
      b.id in t.images && t.images[b.id] == b && b.transformer == transformerId && b.imageType == Baseline
      && t.images[k].createdAt <= b.createdAt
  {
    var bs := Baselines(t, transformerId);
    BaselinesMembers(t, transformerId);
    SortedMembers(Seqs.Filter(Rows(t.images, 0, t.nextId), BaselineOf(transformerId)));
    assert bs[0] in bs;
    assert t.images[k].id == k;
    Sorting.SortedFirstLeast(bs, NewestKey, t.images[k]);
  }

  /** A transformer without a stored baseline has no detection partner. */
  lemma NoBaseline(t: Tables, transformerId: nat)
    requires ValidTables(t)
    ensures Baselines(t, transformerId) == [] <==>
      forall k :: k in t.images ==> !(t.images[k].transformer == transformerId && t.images[k].imageType == Baseline)
  {
    BaselinesMembers(t, transformerId);
    if Baselines(t, transformerId) != [] {
      assert Baselines(t, transformerId)[0] in Baselines(t, transformerId);
    } else {
      forall k | k in t.images
        ensures !(t.images[k].transformer == transformerId && t.images[k].imageType == Baseline)
      {
        assert t.images[k].id == k;
      }
    }
  }

  /** The store after the image row is saved. */
  function WithImage(t: Tables, im: Image): Tables
  {
    t.(images := t.images[t.nextId := im.(id := t.nextId)], nextId := t.nextId + 1)
  }

  /** The detection step of a maintenance upload: the configuration lookup,
      which may save the default configuration, then the detector call with
      that configuration and the ingestion of its reply. A failed lookup
      ends the step like a failed call: nothing is ingested. */
  function Detected(t: Tables, imageId: nat, baselinePath: string, imagePath: string,
                    detect: (string, string, Config) -> Option<string>, parse: string -> Option<Json>,
                    parseTime: string -> Option<Time>, savedAt: Time, keepOriginal: bool): (Tables, Option<Json>)
    requires KeysBelow(t.configs, t.nextId)
  {
    var (t2, config) := AnomalyDetection.DetectionConfig(t);
    if config.Err? then (t2, None)
    else AfterDetection(t2, imageId, detect(baselinePath, imagePath, config.value), parse, parseTime, savedAt,
                        keepOriginal)
  }

  /** The whole upload: the store afterwards and the response. `storagePath`
      is where the file store put the file, `detect` the detector call on the
      baseline's and the upload's files with the configuration sent along
      (None when it fails), `parse` and `parseTime` the JSON and timestamp
      readers, `now` the clock when the entity is built, `storedAt` the
      creation time the database gives the row and `savedAt` the clock when
      the reply is kept (only when `keepOriginal`). */
  function Uploaded(t: Tables, transformerId: nat, meta: UploadMeta, file: FilePart, storagePath: string,
                    detect: (string, string, Config) -> Option<string>, parse: string -> Option<Json>,
                    parseTime: string -> Option<Time>, now: Time, storedAt: Time, savedAt: Time,
                    keepOriginal: bool)
    : (Tables, Result<UploadResponse>)
    requires ValidTables(t)
  {
    match UploadInspection(t, transformerId, meta)
    case Err(e) => (t, Err(e))
    case Ok(inspection) =>
      var im := NewImage(transformerId, inspection, meta, file, storagePath, storedAt).(id := t.nextId);
      var t1 := WithImage(t, im);
      var view := ViewOf(im.(createdAt := now));
      var baselines := Baselines(t1, transformerId);
      if meta.imageType == Baseline || baselines == [] then (t1, Ok(UploadResponse(view, None)))
      else
        var after := Detected(t1, im.id, baselines[0].storagePath, im.storagePath, detect, parse, parseTime,
                              savedAt, keepOriginal);
        (after.0, Ok(UploadResponse(view, after.1)))
  }

  /** `images.save(entity)`, seen on the whole store. */
  method SaveImage(db: Db, im: Image) returns (saved: Image)
    requires db.Valid() && im.transformer in db.transformers
    requires im.inspection.Some? ==> im.inspection.value in db.inspections
    modifies db`images, db`nextId
    ensures db.Valid()
    ensures saved == im.(id := old(db.nextId))
    ensures db.Snapshot() == WithImage(old(db.Snapshot()), im)
    ensures saved.id !in db.metadata && saved.id !in db.originals
  {
    saved := db.InsertImage(im);
  }

  /** The detection step on the store. */
  method Detect(db: Db, imageId: nat, baselinePath: string, imagePath: string,
                detect: (string, string, Config) -> Option<string>, parse: string -> Option<Json>,
                parseTime: string -> Option<Time>, savedAt: Time, keepOriginal: bool)
    returns (anomalyResult: Option<Json>)
    requires db.Valid() && imageId in db.images && imageId !in db.metadata && imageId !in db.originals
    modifies db`configs, db`nextId, db`regions, db`metadata, db`originals
    ensures db.Valid()
    ensures (db.Snapshot(), anomalyResult)
         == Detected(old(db.Snapshot()), imageId, baselinePath, imagePath, detect, parse, parseTime, savedAt,
                     keepOriginal)
  {
    var config := AnomalyDetection.GetActiveConfig(db);
    if config.Err? {
      return None;
    }
    var reply := detect(baselinePath, imagePath, config.value);
    anomalyResult := Ingest(db, imageId, reply, parse, parseTime, savedAt, keepOriginal);
  }

  /** The upload endpoint; `keepOriginal` is whether the reply is also kept
      as the image's original result. */
  method Upload(db: Db, transformerId: nat, meta: UploadMeta, file: FilePart, storagePath: string,
                detect: (string, string, Config) -> Option<string>, parse: string -> Option<Json>,
                parseTime: string -> Option<Time>, now: Time, storedAt: Time, savedAt: Time, keepOriginal: bool)
    returns (res: Result<UploadResponse>)
    requires db.Valid()
    modifies db`images, db`nextId, db`configs, db`regions, db`metadata, db`originals
    ensures db.Valid()
    ensures (db.Snapshot(), res)
         == Uploaded(old(db.Snapshot()), transformerId, meta, file, storagePath, detect, parse, parseTime,
                     now, storedAt, savedAt, keepOriginal)
  {
    var inspection := UploadInspection(db.Snapshot(), transformerId, meta);
    if inspection.Err? {
      return Err(inspection.error);
    }
    var img := SaveImage(db, NewImage(transformerId, inspection.value, meta, file, storagePath, storedAt));
    var anomalyResult: Option<Json> := None;
    if meta.imageType == Maintenance {
      var baselines := Baselines(db.Snapshot(), transformerId);
      if baselines != [] {
        anomalyResult := Detect(db, img.id, baselines[0].storagePath, img.storagePath, detect, parse, parseTime,
                                savedAt, keepOriginal);
      }
    }
    res := Ok(UploadResponse(ViewOf(img.(createdAt := now)), anomalyResult));
  }

  /** A refused upload changes nothing. */
  lemma RefusedUploadChangesNothing(t: Tables, transformerId: nat, meta: UploadMeta, file: FilePart,
                                    storagePath: string, detect: (string, string, Config) -> Option<string>,
                                    parse: string -> Option<Json>, parseTime: string -> Option<Time>,
                                    now: Time, storedAt: Time, savedAt: Time, keepOriginal: bool)
    requires ValidTables(t) && !Acceptable(t, transformerId, meta)
    ensures var (t', res) := Uploaded(t, transformerId, meta, file, storagePath, detect, parse, parseTime,
                                      now, storedAt, savedAt, keepOriginal);
      t' == t && res.Err? && (res.error == NotFound || res.error == BadRequest)
  {
  }

  /** The detection step without keeping the reply touches only the
      configurations, the regions, the id counter and the metadata. */
  lemma DetectedFrame(t: Tables, imageId: nat, baselinePath: string, imagePath: string,
                      detect: (string, string, Config) -> Option<string>, parse: string -> Option<Json>,
                      parseTime: string -> Option<Time>, savedAt: Time)
    requires KeysBelow(t.configs, t.nextId)
    ensures var u := Detected(t, imageId, baselinePath, imagePath, detect, parse, parseTime, savedAt, false).0;
      u == t.(configs := u.configs, regions := u.regions, nextId := u.nextId, metadata := u.metadata)
  {
    var (t2, config) := AnomalyDetection.DetectionConfig(t);
    if config.Ok? {
      AfterDetectionFrame(t2, imageId, detect(baselinePath, imagePath, config.value), parse, parseTime, savedAt);
    }
  }

  /** The detection step changes the configurations at most by saving the
      default, and only when none is active. */
  lemma DetectedConfigs(t: Tables, imageId: nat, baselinePath: string, imagePath: string,
                        detect: (string, string, Config) -> Option<string>, parse: string -> Option<Json>,
                        parseTime: string -> Option<Time>, savedAt: Time)
    requires KeysBelow(t.configs, t.nextId)
    ensures var u := Detected(t, imageId, baselinePath, imagePath, detect, parse, parseTime, savedAt, false).0;
      || u.configs == t.configs
      || (&& u.configs == t.configs[t.nextId := ClassificationTraining.DefaultConfig]
          && forall k :: k in t.configs ==> !t.configs[k].isActive)
  {
    var (t2, config) := AnomalyDetection.DetectionConfig(t);
    if config.Ok? {
      AfterDetectionFrame(t2, imageId, detect(baselinePath, imagePath, config.value), parse, parseTime, savedAt);
    }
  }

  /** Keeping the reply changes only the original results, and not the
      response. */
  lemma DetectedVault(t: Tables, imageId: nat, baselinePath: string, imagePath: string,
                      detect: (string, string, Config) -> Option<string>, parse: string -> Option<Json>,
                      parseTime: string -> Option<Time>, savedAt: Time)
    requires KeysBelow(t.configs, t.nextId)
    ensures var (kept, r1) := Detected(t, imageId, baselinePath, imagePath, detect, parse, parseTime, savedAt, true);
      var (plain, r2) := Detected(t, imageId, baselinePath, imagePath, detect, parse, parseTime, savedAt, false);
      r1 == r2 && kept == plain.(originals := kept.originals)
  {
    var (t2, config) := AnomalyDetection.DetectionConfig(t);
    if config.Ok? {
      AfterDetectionFrame(t2, imageId, detect(baselinePath, imagePath, config.value), parse, parseTime, savedAt);
    }
  }

  /** An accepted upload always saves the image and answers with it, whatever
      the detector does: the image row exists afterwards with the defaults for
      a missing file name or content type, is linked to the inspection exactly
      when it is a maintenance image, and carries the database's creation
      time, while the response carries the entity's own clock reading. */
  lemma AcceptedUploadKeepsImage(t: Tables, transformerId: nat, meta: UploadMeta, file: FilePart,
                                 storagePath: string, detect: (string, string, Config) -> Option<string>,
                                 parse: string -> Option<Json>, parseTime: string -> Option<Time>,
                                 now: Time, storedAt: Time, savedAt: Time, keepOriginal: bool)
    requires ValidTables(t) && Acceptable(t, transformerId, meta)
    ensures var (t', res) := Uploaded(t, transformerId, meta, file, storagePath, detect, parse, parseTime,
                                      now, storedAt, savedAt, keepOriginal);
      var id := t.nextId;
      && res.Ok? && res.value.image.id == id
      && id in t'.images && id !in t.images
      && t'.images == t.images[id := t'.images[id]]
      && t'.images[id].transformer == transformerId
      && t'.images[id].inspection == (if meta.imageType == Maintenance then meta.inspectionId else None)
      && t'.images[id].filename == file.originalFilename.GetOr(DefaultFilename)
      && t'.images[id].contentType == file.contentType.GetOr(OctetStream)
      && t'.images[id].createdAt == storedAt
      && res.value.image == ViewOf(t'.images[id].(createdAt := now))
  {
    var inspection := UploadInspection(t, transformerId, meta);
    var im := NewImage(transformerId, inspection.value, meta, file, storagePath, storedAt).(id := t.nextId);
    var t1 := WithImage(t, im);
    var baselines := Baselines(t1, transformerId);
    if meta.imageType == Maintenance && baselines != [] {
      DetectedFrame(t1, im.id, baselines[0].storagePath, im.storagePath, detect, parse, parseTime, savedAt);
      DetectedVault(t1, im.id, baselines[0].storagePath, im.storagePath, detect, parse, parseTime, savedAt);
    }
  }

  /** An upload adds at most one configuration: the default, saved active
      under the key after the image's, and only for a maintenance upload
      when no configuration was active. */
  lemma UploadConfigs(t: Tables, transformerId: nat, meta: UploadMeta, file: FilePart,
                      storagePath: string, detect: (string, string, Config) -> Option<string>,
                      parse: string -> Option<Json>, parseTime: string -> Option<Time>,
                      now: Time, storedAt: Time, savedAt: Time, keepOriginal: bool)
    requires ValidTables(t)
    ensures var (t', res) := Uploaded(t, transformerId, meta, file, storagePath, detect, parse, parseTime,
                                      now, storedAt, savedAt, keepOriginal);
      t'.configs == t.configs
      || (&& meta.imageType == Maintenance
          && (forall k :: k in t.configs ==> !t.configs[k].isActive)
          && t'.configs == t.configs[t.nextId + 1 := ClassificationTraining.DefaultConfig])
  {
    var inspection := UploadInspection(t, transformerId, meta);
    if inspection.Ok? {
      var im := NewImage(transformerId, inspection.value, meta, file, storagePath, storedAt).(id := t.nextId);
      var t1 := WithImage(t, im);
      var baselines := Baselines(t1, transformerId);
      if meta.imageType == Maintenance && baselines != [] {
        DetectedConfigs(t1, im.id, baselines[0].storagePath, im.storagePath, detect, parse, parseTime, savedAt);
        DetectedVault(t1, im.id, baselines[0].storagePath, im.storagePath, detect, parse, parseTime, savedAt);
      }
    }
  }

  /** A baseline upload never runs detection: only the image row is added and
      the response carries no detector result. */
  lemma BaselineUploadSkipsDetection(t: Tables, transformerId: nat, meta: UploadMeta, file: FilePart,
                                     storagePath: string, detect: (string, string, Config) -> Option<string>,
                                     parse: string -> Option<Json>, parseTime: string -> Option<Time>,
                                     now: Time, storedAt: Time, savedAt: Time, keepOriginal: bool)
    requires ValidTables(t) && Acceptable(t, transformerId, meta) && meta.imageType == Baseline
    ensures var (t', res) := Uploaded(t, transformerId, meta, file, storagePath, detect, parse, parseTime,
                                      now, storedAt, savedAt, keepOriginal);
      && t' == t.(images := t'.images, nextId := t.nextId + 1)
      && res.Ok? && res.value.anomalyResult.None?
      && t'.images[t.nextId].envCondition == meta.envCondition
  {
  }

  /** The upload of the image controller and that of the transformer
      controller leave the same store except for the original results, and
      give the same response. */
  lemma UploadsDifferOnlyInVault(t: Tables, transformerId: nat, meta: UploadMeta, file: FilePart,
                                 storagePath: string, detect: (string, string, Config) -> Option<string>,
                                 parse: string -> Option<Json>, parseTime: string -> Option<Time>,
                                 now: Time, storedAt: Time, savedAt: Time)
    requires ValidTables(t)
    ensures var (kept, r1) := Uploaded(t, transformerId, meta, file, storagePath, detect, parse, parseTime,
                                       now, storedAt, savedAt, true);
      var (plain, r2) := Uploaded(t, transformerId, meta, file, storagePath, detect, parse, parseTime,
                                  now, storedAt, savedAt, false);
      && r1 == r2 && kept.(originals := plain.originals) == plain
      && plain.originals == t.originals
  {
    var inspection := UploadInspection(t, transformerId, meta);
    if inspection.Ok? {
      var im := NewImage(transformerId, inspection.value, meta, file, storagePath, storedAt).(id := t.nextId);
      var t1 := WithImage(t, im);
      var baselines := Baselines(t1, transformerId);
      if meta.imageType == Maintenance && baselines != [] {
        DetectedFrame(t1, im.id, baselines[0].storagePath, im.storagePath, detect, parse, parseTime, savedAt);
        DetectedVault(t1, im.id, baselines[0].storagePath, im.storagePath, detect, parse, parseTime, savedAt);
      }
    }
  }

  /** Detector output enters the store unedited: every region saved by the
      upload belongs to the new image and counts as neither manually added,
      deleted nor modified in the edit summary. */
  lemma DetectedRegionsUnedited(t: Tables, transformerId: nat, meta: UploadMeta, file: FilePart,
                                storagePath: string, detect: (string, string, Config) -> Option<string>,
                                parse: string -> Option<Json>, parseTime: string -> Option<Time>,
                                now: Time, storedAt: Time, savedAt: Time, keepOriginal: bool, k: nat)
    requires ValidTables(t)
    requires var t' := Uploaded(t, transformerId, meta, file, storagePath, detect, parse, parseTime,
                                now, storedAt, savedAt, keepOriginal).0;
      k in t'.regions && k !in t.regions
    ensures var t' := Uploaded(t, transformerId, meta, file, storagePath, detect, parse, parseTime,
                               now, storedAt, savedAt, keepOriginal).0;
      var r := t'.regions[k];
      && r.image == Some(t.nextId) && r.dbId == Some(k)
      && !ImageAnomalyController.IsManualRegion(r)
      && !ImageAnomalyController.IsDeletedRegion(r)
      && !ImageAnomalyController.IsModifiedRegion(r)
  {
    var inspection := UploadInspection(t, transformerId, meta);
    var im := NewImage(transformerId, inspection.value, meta, file, storagePath, storedAt).(id := t.nextId);
    var t1 := WithImage(t, im);
    var baselines := Baselines(t1, transformerId);
    DetectedRowsUnedited(t1, im.id, baselines[0].storagePath, im.storagePath, detect, parse, parseTime,
                         savedAt, keepOriginal, k);
  }

  /** The rows the detection step adds belong to the image and carry none of
      the marks a user's edit leaves. */
  lemma DetectedRowsUnedited(t: Tables, imageId: nat, baselinePath: string, imagePath: string,
                             detect: (string, string, Config) -> Option<string>, parse: string -> Option<Json>,
                             parseTime: string -> Option<Time>, savedAt: Time, keepOriginal: bool, k: nat)
    requires KeysBelow(t.configs, t.nextId)
    requires var u := Detected(t, imageId, baselinePath, imagePath, detect, parse, parseTime, savedAt,
                               keepOriginal).0;
      k in u.regions && k !in t.regions
    ensures var u := Detected(t, imageId, baselinePath, imagePath, detect, parse, parseTime, savedAt,
                              keepOriginal).0;
      var r := u.regions[k];
      && r.image == Some(imageId) && r.dbId == Some(k)
      && r.isManual.None? && r.isDeleted.None? && r.lastModifiedAt.None?
  {
    var (t2, config) := AnomalyDetection.DetectionConfig(t);
    assert t2.regions == t.regions;
    var reply := detect(baselinePath, imagePath, config.value);
    var root := parse(reply.value).value;
    var u := Ingested(t2, imageId, root, reply.value, parseTime, savedAt, keepOriginal);
    assert u.regions == t.regions + IngestedRegions(RegionNodes(root), imageId, t2.nextId);
    IngestedRowsUnedited(RegionNodes(root), imageId, t2.nextId, k);
  }

  /** The listing filter: the requested type, and the requested inspection
      (an image without one never matches a requested inspection). */
  predicate Listed(imageType: Option<ImageType>, inspectionId: Option<nat>, im: Image)
  {
    (imageType.None? || im.imageType == imageType.value)
    && (inspectionId.None? || im.inspection == inspectionId)
  }

  function ListedBy(imageType: Option<ImageType>, inspectionId: Option<nat>): Image -> bool
  {
    (im: Image) => Listed(imageType, inspectionId, im)
  }

  function Views(s: seq<Image>): (vs: seq<ImageView>)
    ensures |vs| == |s| && forall i :: 0 <= i < |s| ==> vs[i] == ViewOf(s[i])
  {
    seq(|s|, i requires 0 <= i < |s| => ViewOf(s[i]))
  }

  /** The images the listing returns, as stored rows, newest first. */
  function ListedImages(t: Tables, transformerId: nat, imageType: Option<ImageType>, inspectionId: Option<nat>)
    : seq<Image>
  {
    Seqs.Filter(TransformerImages(t, transformerId), ListedBy(imageType, inspectionId))
  }

  /** `listImages`: the loop over the transformer's images, newest first,
      skipping those the filters exclude. */
  method ListImages(db: Db, transformerId: nat, imageType: Option<ImageType>, inspectionId: Option<nat>)
    returns (res: Result<seq<ImageView>>)
    requires db.Valid()
    ensures transformerId !in db.transformers ==> res == Err(NotFound)
    ensures transformerId in db.transformers ==>
      res == Ok(Views(ListedImages(db.Snapshot(), transformerId, imageType, inspectionId)))
  {
    if transformerId !in db.transformers {
      return Err(NotFound);
    }
    var all := TransformerImages(db.Snapshot(), transformerId);
    var out: seq<ImageView> := [];
    var i := 0;
    while i < |all|
      invariant 0 <= i <= |all|
      invariant out == Views(Seqs.Filter(all[..i], ListedBy(imageType, inspectionId)))
    {
      var img := all[i];
      ListStep(all, i, ListedBy(imageType, inspectionId));
      var keep := PassesFilters(img, imageType, inspectionId);
      assert keep == ListedBy(imageType, inspectionId)(img);
      if keep {
        out := out + [ViewOf(img)];
      }
      i := i + 1;
    }
    assert all[..|all|] == all;
    res := Ok(out);
  }

  /** The loop body's checks: the type filter, then the inspection filter
      (an image with no inspection never matches one). */
  method PassesFilters(img: Image, imageType: Option<ImageType>, inspectionId: Option<nat>) returns (keep: bool)
    ensures keep <==> Listed(imageType, inspectionId, img)
  {
    if imageType.Some? && img.imageType != imageType.value {
      return false;
    }
    if inspectionId.Some? {
      if img.inspection.None? {
        return false;
      }
      if img.inspection.value != inspectionId.value {
        return false;
      }
    }
    return true;
  }

  /** One more iteration of the listing loop. */
  lemma ListStep(all: seq<Image>, i: nat, p: Image -> bool)
    requires i < |all|
    ensures Views(Seqs.Filter(all[..i + 1], p))
         == Views(Seqs.Filter(all[..i], p)) + if p(all[i]) then [ViewOf(all[i])] else []
  {
    Seqs.FilterSnoc(all[..i], all[i], p);
    assert all[..i + 1] == all[..i] + [all[i]];
  }

  /** In a sorted list the head comes before every later element. */
  lemma HeadComesFirst(s: seq<Image>, x: Image)
    requires Sorting.SortedBy(s, NewestKey) && s != [] && x in s[1..]
    ensures Sorting.KeyLe(NewestKey(s[0]), NewestKey(x))
  {
    var m :| 0 <= m < |s[1..]| && s[1..][m] == x;
    assert s[m + 1] == x;
  }

  /** Filtering keeps a newest-first order. */
  lemma {:induction false} FilterKeepsOrder(s: seq<Image>, p: Image -> bool)
    requires Sorting.SortedBy(s, NewestKey)
    ensures Sorting.SortedBy(Seqs.Filter(s, p), NewestKey)
    decreases |s|
  {
    if s != [] {
      assert Sorting.SortedBy(s[1..], NewestKey) by {
        forall i, j | 0 <= i < j < |s[1..]|
          ensures Sorting.KeyLe(NewestKey(s[1..][i]), NewestKey(s[1..][j]))
        {
          assert s[1..][i] == s[i + 1] && s[1..][j] == s[j + 1];
        }
      }
      FilterKeepsOrder(s[1..], p);
      if p(s[0]) {
        var f := Seqs.Filter(s[1..], p);
        assert Seqs.Filter(s, p) == [s[0]] + f;
        forall y | y in f
          ensures Sorting.KeyLe(NewestKey(s[0]), NewestKey(y))
        {
          HeadComesFirst(s, y);
        }
        ConsSorted(s[0], f);
      }
    }
  }

  /** An image no later than every image of a sorted list can go in front. */
  lemma ConsSorted(x: Image, f: seq<Image>)
    requires Sorting.SortedBy(f, NewestKey)
    requires forall y :: y in f ==> Sorting.KeyLe(NewestKey(x), NewestKey(y))
    ensures Sorting.SortedBy([x] + f, NewestKey)
  {
    var r := [x] + f;
    forall i, j | 0 <= i < j < |r|
      ensures Sorting.KeyLe(NewestKey(r[i]), NewestKey(r[j]))
    {
      assert r[j] == f[j - 1];
      if i > 0 {
        assert r[i] == f[i - 1];
      }
    }
  }

  /** The listing returns exactly the transformer's stored images that pass
      the filters, newest first. */
  lemma ListedImagesCorrect(t: Tables, transformerId: nat, imageType: Option<ImageType>, inspectionId: Option<nat>)
    requires ValidTables(t)
    ensures forall im :: im in ListedImages(t, transformerId, imageType, inspectionId) <==>
      im.id in t.images && t.images[im.id] == im && im.transformer == transformerId
      && Listed(imageType, inspectionId, im)
    ensures forall i, j :: 0 <= i < j < |ListedImages(t, transformerId, imageType, inspectionId)| ==>
      ListedImages(t, transformerId, imageType, inspectionId)[i].createdAt
      >= ListedImages(t, transformerId, imageType, inspectionId)[j].createdAt
  {
    var all := TransformerImages(t, transformerId);
    SortedMembers(Seqs.Filter(Rows(t.images, 0, t.nextId), OfTransformer(transformerId)));
    forall im
      ensures im in ListedImages(t, transformerId, imageType, inspectionId) <==>
        im.id in t.images && t.images[im.id] == im && im.transformer == transformerId
        && Listed(imageType, inspectionId, im)
    {
      RowsMembers(t.images, 0, t.nextId, im);
    }
    FilterKeepsOrder(all, ListedBy(imageType, inspectionId));
    var r := ListedImages(t, transformerId, imageType, inspectionId);
    forall i, j | 0 <= i < j < |r|
      ensures r[i].createdAt >= r[j].createdAt
    {
      assert Sorting.KeyLe(NewestKey(r[i]), NewestKey(r[j]));
    }
  }
}
