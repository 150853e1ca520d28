/** The error-annotation endpoints of a maintenance image: the listing with
    its include-deleted switch, and the id checks in front of the service. */
module ImageErrorAnnotationController {
  import opened Common
  import opened FaultRegionModel
  import opened Entities
  import opened Database
  import opened ErrorAnnotationDto
  import opened ErrorAnnotationService
  import Seqs
  import Sorting

  /** The order of `OrderByRegionIdAsc`: ascending detector region id, rows
      without one after all others (where nulls go is up to the database;
      this model puts them last). */
  function RegionIdKey(r: RegionRow): Sorting.Key
  {
    if r.regionId.None? then (1, 0) else (0, r.regionId.value)
  }

  /** `findByImageIdOrderByRegionIdAsc`. */
  function ByRegionId(regions: map<nat, RegionRow>, nextId: nat, imageId: nat): (rs: seq<RegionRow>)
  {
    Sorting.SortBy(ImageRegions(regions, nextId, imageId), RegionIdKey)
  }

  /** The ordered query returns exactly the image's rows, ordered by region id. */
  lemma ByRegionIdCorrect(regions: map<nat, RegionRow>, nextId: nat, imageId: nat)
    ensures Sorting.SortedBy(ByRegionId(regions, nextId, imageId), RegionIdKey)
    ensures multiset(ByRegionId(regions, nextId, imageId)) == multiset(ImageRegions(regions, nextId, imageId))
    ensures forall x :: x in ByRegionId(regions, nextId, imageId) <==> x in ImageRegions(regions, nextId, imageId)
  {
    Sorting.SortByCorrect(ImageRegions(regions, nextId, imageId), RegionIdKey);
    var s := ImageRegions(regions, nextId, imageId);
    forall x ensures x in ByRegionId(regions, nextId, imageId) <==> x in s {
      assert x in ByRegionId(regions, nextId, imageId) <==> x in multiset(ByRegionId(regions, nextId, imageId));
      assert x in s <==> x in multiset(s);
    }
  }

  /** `includeDeleted` when the query string leaves it out. */
  const IncludeDeletedByDefault := true

  /** The listing filter: everything, or everything not flagged deleted (a
      null flag counts as not deleted). */
  predicate Listed(includeDeleted: bool, r: RegionRow)
  {
    includeDeleted || r.isDeleted.None? || !r.isDeleted.value
  }

  function ListedRows(rs: seq<RegionRow>, includeDeleted: bool): (r: seq<RegionRow>)
    ensures includeDeleted ==> r == rs
    ensures forall x :: x in r <==> x in rs && (includeDeleted || !x.SoftDeleted())
  {
    var r := Seqs.Filter(rs, (x: RegionRow) => Listed(includeDeleted, x));
    if includeDeleted then Seqs.FilterAll(rs, (x: RegionRow) => Listed(includeDeleted, x)); r else r
  }

  /** Dropping deleted rows keeps the region-id order of the others. */
  lemma ListedKeepsOrder(rs: seq<RegionRow>, includeDeleted: bool)
    ensures Seqs.IsSubsequence(ListedRows(rs, includeDeleted), rs)
  {
    Seqs.FilterIsSubsequence(rs, (x: RegionRow) => Listed(includeDeleted, x));
  }

  /** The annotation views of rows of one image, in order. */
  function Views(rs: seq<RegionRow>, imageCreatedAt: Time, now: Time): (vs: seq<ErrorAnnotation>)
    ensures |vs| == |rs|
    ensures forall i :: 0 <= i < |rs| ==> vs[i] == FromFaultRegion(rs[i], imageCreatedAt, now, Random(0))
  {
    seq(|rs|, i requires 0 <= i < |rs| => FromFaultRegion(rs[i], imageCreatedAt, now, Random(0)))
  }

  /** `getImageErrors`. */
  function GetImageErrors(t: Tables, imageId: nat, includeDeleted: bool, now: Time): (res: Result<seq<ErrorAnnotation>>)
    ensures imageId !in t.images <==> res == Err(NotFound)
    ensures imageId in t.images && t.images[imageId].imageType != Maintenance <==> res == Err(BadRequest)
    ensures imageId in t.images && t.images[imageId].imageType == Maintenance ==>
      res == Ok(Views(ListedRows(ByRegionId(t.regions, t.nextId, imageId), includeDeleted),
                      t.images[imageId].createdAt, now))
    ensures res.Ok? && ImageRegions(t.regions, t.nextId, imageId) == [] ==> res.value == []
  {
    if imageId !in t.images then Err(NotFound)
    else if t.images[imageId].imageType != Maintenance then Err(BadRequest)
    else
      var rows := ByRegionId(t.regions, t.nextId, imageId);
      if rows == [] then Ok([])
      else Ok(Views(ListedRows(rows, includeDeleted), t.images[imageId].createdAt, now))
  }

  /** The store after a successful create on image `imageId`. */
  function AfterCreate(t: Tables, req: CreateRequest, now: Time): Tables
  {
    t.(regions := t.regions[t.nextId := Persisted(CreatedRow(req, now).(dbId := Some(t.nextId)))],
       nextId := t.nextId + 1)
  }

  /** A stored row of the image that the filter keeps is listed. */
  lemma StoredIsListed(regions: map<nat, RegionRow>, nextId: nat, imageId: nat, includeDeleted: bool, k: nat)
    requires k in regions && k < nextId && regions[k].image == Some(imageId)
    requires includeDeleted || !regions[k].SoftDeleted()
    ensures regions[k] in ListedRows(ByRegionId(regions, nextId, imageId), includeDeleted)
  {
    RowsMembers(regions, 0, nextId, regions[k]);
    ByRegionIdCorrect(regions, nextId, imageId);
  }

  /** A listed annotation carrying the identifier of key `k` is the view of
      the row stored under `k`. */
  lemma ListedIdDesignatesKey(regions: map<nat, RegionRow>, nextId: nat, imageId: nat, includeDeleted: bool,
                              c: Time, n: Time, k: nat, a: ErrorAnnotation)
    requires RegionsKeyed(regions) && k in regions
    requires a in Views(ListedRows(ByRegionId(regions, nextId, imageId), includeDeleted), c, n)
    requires a.id == ExternalId(Some(k))
    ensures a == FromFaultRegion(regions[k], c, n, Random(0))
  {
    var listed := ListedRows(ByRegionId(regions, nextId, imageId), includeDeleted);
    var vs := Views(listed, c, n);
    var j :| 0 <= j < |vs| && vs[j] == a;
    var x := listed[j];
    ByRegionIdCorrect(regions, nextId, imageId);
    assert x in ImageRegions(regions, nextId, imageId);
    ListedIsStored(regions, nextId, imageId, x);
    ExternalIdInjective(x.dbId, Some(k));
  }

  /** A created annotation is listed under the identifier the create returned,
      and no other listed annotation carries that identifier. */
  lemma CreatedIsListed(t: Tables, req: CreateRequest, now: Time, includeDeleted: bool, n: Time)
    requires RegionsKeyed(t.regions) && KeysBelow(t.regions, t.nextId)
    requires req.imageId in t.images && t.images[req.imageId].imageType == Maintenance
    ensures var res := GetImageErrors(AfterCreate(t, req, now), req.imageId, includeDeleted, n);
      && res.Ok?
      && (exists a :: a in res.value && a.id == ExternalId(Some(t.nextId)))
      && forall a :: a in res.value && a.id == ExternalId(Some(t.nextId)) ==>
           a == FromFaultRegion(Persisted(CreatedRow(req, now).(dbId := Some(t.nextId))),
                                t.images[req.imageId].createdAt, n, Random(0))
  {
    var regions := AfterCreate(t, req, now).regions;
    var nextId := t.nextId + 1;
    var id := t.nextId;
    var p := Persisted(CreatedRow(req, now).(dbId := Some(id)));
    assert regions[id] == p;
    assert p.image == Some(req.imageId) && p.dbId == Some(id) && !p.SoftDeleted();
    assert RegionsKeyed(regions);
    StoredIsListed(regions, nextId, req.imageId, includeDeleted, id);
    var listed := ListedRows(ByRegionId(regions, nextId, req.imageId), includeDeleted);
    var c := t.images[req.imageId].createdAt;
    var vs := Views(listed, c, n);
    assert GetImageErrors(AfterCreate(t, req, now), req.imageId, includeDeleted, n) == Ok(vs);
    var i :| 0 <= i < |listed| && listed[i] == p;
    assert vs[i] in vs && vs[i].id == ExternalId(Some(id));
    forall a | a in vs && a.id == ExternalId(Some(id))
      ensures a == FromFaultRegion(p, c, n, Random(0))
    {
      ListedIdDesignatesKey(regions, nextId, req.imageId, includeDeleted, c, n, id, a);
    }
  }

  /** `createImageError`: a body that leaves out the centre is refused by
      validation, and a body naming another image than the path is refused;
      neither reaches the service. */
  method CreateImageError(db: Db, pathImageId: nat, req: CreateRequest, now: Time) returns (res: Result<ErrorAnnotation>)
    requires db.Valid()
    modifies db`regions, db`nextId
    ensures db.Valid()
    ensures req.cx.None? || req.cy.None? || pathImageId != req.imageId ==>
      res == Err(BadRequest) && db.regions == old(db.regions) && db.nextId == old(db.nextId)
    ensures req.cx.Some? && req.cy.Some? && pathImageId == req.imageId ==>
      if req.imageId !in db.images
      then res == Err(NotFound) && db.regions == old(db.regions) && db.nextId == old(db.nextId)
      else var saved := CreatedRow(req, now).(dbId := Some(old(db.nextId)));
        && db.nextId == old(db.nextId) + 1
        && db.regions == old(db.regions)[old(db.nextId) := Persisted(saved)]
        && res == Ok(CreatedResponse(req, saved))
  {
    if req.cx.None? || req.cy.None? {
      return Err(BadRequest);
    }
    if pathImageId != req.imageId {
      return Err(BadRequest);
    }
    res := CreateErrorAnnotation(db, req, now);
  }

  /** `updateImageError`: a body naming another annotation than the path is
      refused before the service runs. */
  method UpdateImageError(db: Db, imageId: nat, errorId: Uuid, req: UpdateRequest, now: Time)
    returns (res: Result<ErrorAnnotation>)
    requires db.Valid()
    modifies db`regions
    ensures db.Valid()
    ensures errorId != req.id ==> res == Err(BadRequest) && db.regions == old(db.regions)
    ensures errorId == req.id && (imageId !in db.images || Resolve(old(db.regions), db.nextId, imageId, errorId).None?) ==>
      res == Err(NotFound) && db.regions == old(db.regions)
    ensures errorId == req.id && imageId in db.images && Resolve(old(db.regions), db.nextId, imageId, errorId).Some? ==>
      var e := Resolve(old(db.regions), db.nextId, imageId, errorId).value;
      && e.dbId.Some?
      && db.regions == old(db.regions)[e.dbId.value := Persisted(UpdatedRow(e, req, now))]
      && res == Ok(FromFaultRegion(UpdatedRow(e, req, now), db.images[imageId].createdAt, now, Random(0)))
  {
    if errorId != req.id {
      return Err(BadRequest);
    }
    res := UpdateErrorAnnotation(db, imageId, errorId, req, now);
  }

  /** `errorId` names the region stored under key `k`, a region of image
      `imageId`. */
  predicate Designates(regions: map<nat, RegionRow>, imageId: nat, errorId: Uuid, k: nat)
  {
    k in regions && regions[k].image == Some(imageId) && ExternalId(Some(k)) == errorId
  }

  /** `deleteImageError`: no image-type check, straight to the service. An
      unknown image or an identifier that names none of its regions is a 404,
      a region already deleted an IllegalState; otherwise exactly the
      designated region is flagged and stamped, and its view is returned. */
  method DeleteImageError(db: Db, imageId: nat, errorId: Uuid, now: Time) returns (res: Result<ErrorAnnotation>)
    requires db.Valid()
    modifies db`regions
    ensures db.Valid()
    ensures res == Err(NotFound) <==>
      imageId !in db.images || forall k :: k in old(db.regions) ==> !Designates(old(db.regions), imageId, errorId, k)
    ensures res.Err? ==> db.regions == old(db.regions)
    ensures forall k :: imageId in db.images && Designates(old(db.regions), imageId, errorId, k) ==>
      var e := old(db.regions)[k];
      if e.SoftDeleted() then res == Err(IllegalState)
      else
        && db.regions == old(db.regions)[k := Persisted(SoftDeletedRow(e, now))]
        && res == Ok(FromFaultRegion(SoftDeletedRow(e, now), db.images[imageId].createdAt, now, Random(0)))
  {
    ResolveByKey(db.regions, db.nextId, imageId, errorId);
    ghost var r := Resolve(db.regions, db.nextId, imageId, errorId);
    if r.Some? {
      ListedIsStored(db.regions, db.nextId, imageId, r.value);
    }
    res := SoftDeleteErrorAnnotation(db, imageId, errorId, now);
  }
}
