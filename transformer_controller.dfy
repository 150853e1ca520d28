/** The transformer endpoints: create, read, update and delete of the
    transformer rows, the second upload endpoint (which never keeps the
    detector reply as an original result) and the error listing that shows
    every region of an image. The image listing, the anomaly results, the
    error create and the inspection create behave exactly as their
    counterparts in the image, anomaly, error-annotation and inspection
    controllers and are modelled there. */
module TransformerController {
  import opened Common
  import opened Json
  import opened Entities
  import opened FaultRegionModel
  import opened Database
  import opened ErrorAnnotationDto
  import opened ErrorAnnotationService
  import opened ImageErrorAnnotationController
  import ImageUpload

  /** `create`: a new row holding the four descriptive fields of the request. */
  method Create(db: Db, dto: Transformer) returns (id: nat)
    requires db.Valid()
    modifies db`transformers, db`nextId
    ensures db.Valid()
    ensures id == old(db.nextId) && id !in old(db.transformers)
    ensures db.transformers == old(db.transformers)[id := dto]
  {
    var t := Transformer(dto.transformerNo, dto.poleNo, dto.region, dto.transformerType);
    id := db.InsertTransformer(t);
  }

  /** `get`: 404 for an unknown id. */
  function Get(t: Tables, id: nat): (r: Result<Transformer>)
    ensures r.Ok? <==> id in t.transformers
    ensures r.Ok? ==> r.value == t.transformers[id]
    ensures r.Err? ==> r.error == NotFound
  {
    if id in t.transformers then Ok(t.transformers[id]) else Err(NotFound)
  }

  /** `update`: the four setters on the loaded row, then `save`; every
      descriptive field is replaced, so the row becomes the request. */
  method Update(db: Db, id: nat, dto: Transformer) returns (res: Result<Transformer>)
    requires db.Valid()
    modifies db`transformers
    ensures db.Valid()
    ensures id !in old(db.transformers) ==> res == Err(NotFound) && db.transformers == old(db.transformers)
    ensures id in old(db.transformers) ==> res == Ok(dto) && db.transformers == old(db.transformers)[id := dto]
  {
    var found := Get(db.Snapshot(), id);
    if found.Err? {
      return Err(found.error);
    }
    var t := found.value;
    t := t.(transformerNo := dto.transformerNo);
    t := t.(poleNo := dto.poleNo);
    t := t.(region := dto.region);
    t := t.(transformerType := dto.transformerType);
    db.SaveTransformer(id, t);
    return Ok(t);
  }

  /** `delete`: 404 for an unknown id; otherwise only the transformer row is
      deleted, nothing that references it. While an inspection, image or
      maintenance record still references it the store refuses, and the
      request fails with a 500. */
  method Delete(db: Db, id: nat) returns (res: Result<()>)
    requires db.Valid()
    modifies db`transformers
    ensures db.Valid()
    ensures id !in old(db.transformers) ==> res == Err(NotFound)
    ensures id in old(db.transformers) ==>
      (res == Ok(()) <==> !TransformerReferenced(old(db.Snapshot()), id))
      && (res.Err? ==> res == Err(Internal))
    ensures res.Ok? ==> db.transformers == old(db.transformers) - {id}
    ensures res.Err? ==> db.transformers == old(db.transformers)
    ensures db.Snapshot() == old(db.Snapshot()).(transformers := db.transformers)
  {
    if id !in db.transformers {
      return Err(NotFound);
    }
    var ok := db.DeleteTransformer(id);
    if !ok {
      return Err(Internal);
    }
    return Ok(());
  }

  /** `upload` of this controller: the shared upload with the reply never kept. */
  method UploadImage(db: Db, transformerId: nat, meta: ImageUpload.UploadMeta, file: ImageUpload.FilePart,
                     storagePath: string, detect: (string, string, Config) -> Option<string>,
                     parse: string -> Option<Json>, parseTime: string -> Option<Time>, now: Time, storedAt: Time)
    returns (res: Result<ImageUpload.UploadResponse>)
    requires db.Valid()
    modifies db`images, db`nextId, db`configs, db`regions, db`metadata, db`originals
    ensures db.Valid()
    ensures (db.Snapshot(), res)
         == ImageUpload.Uploaded(old(db.Snapshot()), transformerId, meta, file, storagePath, detect, parse,
                                 parseTime, now, storedAt, now, false)
    ensures db.originals == old(db.originals)
  {
    ImageUpload.UploadsDifferOnlyInVault(db.Snapshot(), transformerId, meta, file, storagePath, detect,
                                        parse, parseTime, now, storedAt, now);
    res := ImageUpload.Upload(db, transformerId, meta, file, storagePath, detect, parse, parseTime, now, storedAt,
                              now, false);
  }

  /** `getImageErrors` of this controller: the same checks as the
      error-annotation listing and no deleted filter. */
  function GetAllImageErrors(t: Tables, imageId: nat, now: Time): (res: Result<seq<ErrorAnnotation>>)
    ensures imageId !in t.images <==> res == Err(NotFound)
    ensures imageId in t.images && t.images[imageId].imageType != Maintenance <==> res == Err(BadRequest)
    ensures res.Ok? ==>
      res.value == Views(ByRegionId(t.regions, t.nextId, imageId), t.images[imageId].createdAt, now)
  {
    GetImageErrors(t, imageId, true, now)
  }

  /** Every stored region of a maintenance image is listed, soft-deleted or
      not, and nothing else is: the listing is one view per region of the
      image. */
  lemma ListsEveryRegion(t: Tables, imageId: nat, now: Time)
    requires KeysBelow(t.regions, t.nextId)
    requires imageId in t.images && t.images[imageId].imageType == Maintenance
    ensures GetAllImageErrors(t, imageId, now).Ok?
    ensures |GetAllImageErrors(t, imageId, now).value| == |ImageRegions(t.regions, t.nextId, imageId)|
    ensures forall k :: k in t.regions && t.regions[k].image == Some(imageId) ==>
      FromFaultRegion(t.regions[k], t.images[imageId].createdAt, now, Random(0))
        in GetAllImageErrors(t, imageId, now).value
  {
    var rows := ByRegionId(t.regions, t.nextId, imageId);
    ByRegionIdCorrect(t.regions, t.nextId, imageId);
    assert |rows| == |multiset(rows)| == |ImageRegions(t.regions, t.nextId, imageId)|;
    forall k | k in t.regions && t.regions[k].image == Some(imageId)
      ensures FromFaultRegion(t.regions[k], t.images[imageId].createdAt, now, Random(0))
                in GetAllImageErrors(t, imageId, now).value
    {
      StoredIsListed(t.regions, t.nextId, imageId, true, k);
      var j :| 0 <= j < |rows| && rows[j] == t.regions[k];
      var vs := Views(rows, t.images[imageId].createdAt, now);
      assert vs[j] == FromFaultRegion(t.regions[k], t.images[imageId].createdAt, now, Random(0));
    }
  }
}
