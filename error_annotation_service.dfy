/** Creating, patching and soft-deleting the fault regions of one image on
    behalf of a user, addressing a region by its external identifier. */
module ErrorAnnotationService {
  import opened Common
  import opened FaultRegionModel
  import opened Database
  import opened ErrorAnnotationDto
  import Seqs

  /** The body of a create request; `imageId` is the required image reference. */
  datatype CreateRequest = CreateRequest(
    imageId: nat,
    cx: Option<real>, cy: Option<real>, w: Option<real>, h: Option<real>,
    status: Option<string>, labelText: Option<string>, comment: Option<string>,
    confidence: Option<real>, colorRgb: Option<seq<int>>, isManual: Option<bool>,
    createdBy: Option<string>, createdAt: Option<Time>)

  /** The body of an update request; `id` repeats the identifier in the path. */
  datatype UpdateRequest = UpdateRequest(
    id: Uuid,
    cx: Option<real>, cy: Option<real>, w: Option<real>, h: Option<real>,
    status: Option<string>, labelText: Option<string>, comment: Option<string>,
    confidence: Option<real>, colorRgb: Option<seq<int>>,
    lastModifiedBy: Option<string>, lastModifiedAt: Option<Time>)

  const Unknown := "unknown"

  /** The corner coordinate of a box centred at `c` with size `s`, rounded. */
  function Corner(c: real, s: real): (x: int)
    ensures x as real - 0.5 <= c - s / 2.0 < x as real + 0.5
  {
    Round(c - s / 2.0)
  }

  /** The box a create request describes: corner from centre and size, each
      coordinate only when both of its inputs are given. */
  function CreatedBox(cx: Option<real>, cy: Option<real>, w: Option<real>, h: Option<real>): (b: BoundingBox)
    ensures b.x.Some? <==> cx.Some? && w.Some?
    ensures b.y.Some? <==> cy.Some? && h.Some?
    ensures b.x.Some? ==> b.x.value as real - 0.5 <= cx.value - w.value / 2.0 < b.x.value as real + 0.5
    ensures b.y.Some? ==> b.y.value as real - 0.5 <= cy.value - h.value / 2.0 < b.y.value as real + 0.5
    ensures b.width == (if w.Some? then Some(Truncate(w.value)) else None)
    ensures b.height == (if h.Some? then Some(Truncate(h.value)) else None)
    ensures b.areaPx.Some? <==> w.Some? && h.Some?
    ensures b.areaPx.Some? ==> b.areaPx.value as real - 0.5 <= w.value * h.value < b.areaPx.value as real + 0.5
  {
    BoundingBox(
      if cx.Some? && w.Some? then Some(Corner(cx.value, w.value)) else None,
      if cy.Some? && h.Some? then Some(Corner(cy.value, h.value)) else None,
      if w.Some? then Some(Truncate(w.value)) else None,
      if h.Some? then Some(Truncate(h.value)) else None,
      if w.Some? && h.Some? then Some(Round(w.value * h.value)) else None)
  }

  function TruncateOpt(v: Option<real>): (r: Option<int>)
    ensures r.Some? <==> v.Some?
    ensures r.Some? ==> -1.0 < v.value - r.value as real < 1.0
  {
    if v.Some? then Some(Truncate(v.value)) else None
  }

  /** The row a create request produces before it is saved. */
  function CreatedRow(req: CreateRequest, now: Time): (r: RegionRow)
    ensures r.boundingBox == Some(CreatedBox(req.cx, req.cy, req.w, req.h))
    ensures r.centroid == Some(Centroid(TruncateOpt(req.cx), TruncateOpt(req.cy)))
    ensures r.faultType == req.labelText && r.tag == req.status && r.comment == req.comment
    ensures r.confidence == req.confidence && r.colorRgb == req.colorRgb
    ensures r.image == Some(req.imageId)
    // the defaults for what the caller leaves out
    ensures r.isManual == Some(req.isManual.GetOr(true))
    ensures r.createdAt == Some(req.createdAt.GetOr(now))
    ensures r.createdBy == Some(req.createdBy.GetOr(Unknown))
    // what a create never sets
    ensures r.dbId.None? && r.regionId.None? && r.dominantColor.None? && r.aspectRatio.None?
    ensures r.elongated.None? && r.connectedToWire.None?
    ensures r.lastModifiedAt.None? && r.lastModifiedBy.None? && r.isDeleted.None? && r.deletedAt.None?
  {
    BlankRow.(
      boundingBox := Some(CreatedBox(req.cx, req.cy, req.w, req.h)),
      centroid := Some(Centroid(TruncateOpt(req.cx), TruncateOpt(req.cy))),
      faultType := req.labelText, tag := req.status, confidence := req.confidence,
      colorRgb := req.colorRgb, image := Some(req.imageId), comment := req.comment,
      isManual := Some(req.isManual.GetOr(true)),
      createdAt := Some(req.createdAt.GetOr(now)),
      createdBy := Some(req.createdBy.GetOr(Unknown)))
  }

  /** The create response: the request's own centre and size, the saved row's
      other fields, and the identifier of the new key. */
  function CreatedResponse(req: CreateRequest, saved: RegionRow): (a: ErrorAnnotation)
    ensures a.id == ExternalId(saved.dbId)
    ensures a.imageId == Some(req.imageId)
    ensures a.cx == req.cx && a.cy == req.cy && a.w == req.w && a.h == req.h
    ensures a.status == saved.tag && a.labelText == saved.faultType
    ensures a.isPoint <==> IsPointSize(req.w, req.h)
    ensures !a.isDeleted && a.deletedAt.None?
  {
    ErrorAnnotation(
      id := ExternalId(saved.dbId),
      imageId := Some(req.imageId),
      regionId := RegionIdText(saved.regionId),
      cx := req.cx, cy := req.cy, w := req.w, h := req.h,
      status := saved.tag, labelText := saved.faultType, comment := saved.comment,
      confidence := saved.confidence, colorRgb := saved.colorRgb, isManual := saved.isManual,
      isPoint := IsPointSize(req.w, req.h),
      isDeleted := false,
      createdAt := saved.createdAt, createdBy := saved.createdBy,
      lastModifiedAt := saved.lastModifiedAt, lastModifiedBy := saved.lastModifiedBy,
      deletedAt := None)
  }

  /** The stored box `b0` as an update with these inputs leaves it: x and
      width move together, from cx and w; y and height from cy and h; the area
      follows w and h alone. */
  predicate BoxPatched(b0: BoundingBox, b: BoundingBox, req: UpdateRequest)
  {
    && (if req.cx.Some? && req.w.Some?
        then b.x == Some(Corner(req.cx.value, req.w.value)) && b.width == Some(Truncate(req.w.value))
        else b.x == b0.x && b.width == b0.width)
    && (if req.cy.Some? && req.h.Some?
        then b.y == Some(Corner(req.cy.value, req.h.value)) && b.height == Some(Truncate(req.h.value))
        else b.y == b0.y && b.height == b0.height)
    && b.areaPx == (if req.w.Some? && req.h.Some? then Some(Round(req.w.value * req.h.value)) else b0.areaPx)
  }

  predicate CentroidPatched(c0: Centroid, c: Centroid, req: UpdateRequest)
  {
    && c.x == (if req.cx.Some? then Some(Truncate(req.cx.value)) else c0.x)
    && c.y == (if req.cy.Some? then Some(Truncate(req.cy.value)) else c0.y)
  }

  predicate GeometryGiven(req: UpdateRequest)
  {
    req.cx.Some? || req.cy.Some? || req.w.Some? || req.h.Some?
  }

  /** The box after an update that supplies some geometry. */
  function PatchBox(b0: BoundingBox, req: UpdateRequest): (b: BoundingBox)
    ensures BoxPatched(b0, b, req)
  {
    var b1 := if req.cx.Some? && req.w.Some?
              then b0.(x := Some(Corner(req.cx.value, req.w.value)), width := Some(Truncate(req.w.value)))
              else b0;
    var b2 := if req.cy.Some? && req.h.Some?
              then b1.(y := Some(Corner(req.cy.value, req.h.value)), height := Some(Truncate(req.h.value)))
              else b1;
    if req.w.Some? && req.h.Some? then b2.(areaPx := Some(Round(req.w.value * req.h.value))) else b2
  }

  /** The centroid after an update that supplies some geometry. */
  function PatchCentroid(c0: Centroid, req: UpdateRequest): (c: Centroid)
    ensures CentroidPatched(c0, c, req)
  {
    var c1 := if req.cx.Some? then c0.(x := Some(Truncate(req.cx.value))) else c0;
    if req.cy.Some? then c1.(y := Some(Truncate(req.cy.value))) else c1
  }

  /** The geometry after an update: the stored box and centroid (or empty ones)
      with the coordinates the request supplies; untouched when it supplies none. */
  function PatchedGeometry(e: RegionRow, req: UpdateRequest): (r: RegionRow)
    ensures r.(boundingBox := e.boundingBox, centroid := e.centroid) == e
    ensures !GeometryGiven(req) ==> r == e
    ensures GeometryGiven(req) ==> r.boundingBox.Some? && r.centroid.Some?
    ensures GeometryGiven(req) && r.boundingBox.Some? ==>
      BoxPatched(e.boundingBox.GetOr(EmptyBox), r.boundingBox.value, req)
    ensures GeometryGiven(req) && r.centroid.Some? ==>
      CentroidPatched(e.centroid.GetOr(EmptyCentroid), r.centroid.value, req)
  {
    if !GeometryGiven(req) then e
    else e.(boundingBox := Some(PatchBox(e.boundingBox.GetOr(EmptyBox), req)),
            centroid := Some(PatchCentroid(e.centroid.GetOr(EmptyCentroid), req)))
  }

  /** `v` when given, else the current value. */
  function Patch<T>(current: Option<T>, v: Option<T>): (r: Option<T>)
    ensures v.Some? ==> r == v
    ensures v.None? ==> r == current
  {
    if v.Some? then v else current
  }

  /** The non-geometric part of an update: the given fields, the stamps and
      the hand-edited mark. */
  function PatchedFields(e: RegionRow, req: UpdateRequest, now: Time): RegionRow
  {
    e.(faultType := Patch(e.faultType, req.labelText),
       tag := Patch(e.tag, req.status),
       confidence := Patch(e.confidence, req.confidence),
       colorRgb := Patch(e.colorRgb, req.colorRgb),
       comment := Patch(e.comment, req.comment),
       lastModifiedAt := Some(req.lastModifiedAt.GetOr(now)),
       lastModifiedBy := Some(req.lastModifiedBy.GetOr(Unknown)),
       isManual := Some(true))
  }

  /** The row after an update, before it is saved. */
  function UpdatedRow(e: RegionRow, req: UpdateRequest, now: Time): (r: RegionRow)
    // identity, provenance and deletion state are never touched
    ensures r.dbId == e.dbId && r.regionId == e.regionId && r.image == e.image
    ensures r.dominantColor == e.dominantColor && r.aspectRatio == e.aspectRatio
    ensures r.elongated == e.elongated && r.connectedToWire == e.connectedToWire
    ensures r.createdAt == e.createdAt && r.createdBy == e.createdBy
    ensures r.isDeleted == e.isDeleted && r.deletedAt == e.deletedAt
    // geometry as patched
    ensures r.boundingBox == PatchedGeometry(e, req).boundingBox
    ensures r.centroid == PatchedGeometry(e, req).centroid
    // the other fields change only when given
    ensures r.faultType == Patch(e.faultType, req.labelText) && r.tag == Patch(e.tag, req.status)
    ensures r.confidence == Patch(e.confidence, req.confidence) && r.colorRgb == Patch(e.colorRgb, req.colorRgb)
    ensures r.comment == Patch(e.comment, req.comment)
    // every update is stamped and marks the region as hand-edited
    ensures r.lastModifiedAt == Some(req.lastModifiedAt.GetOr(now))
    ensures r.lastModifiedBy == Some(req.lastModifiedBy.GetOr(Unknown))
    ensures r.isManual == Some(true)
  {
    PatchedFields(PatchedGeometry(e, req), req, now)
  }

  /** The row after a soft delete. */
  function SoftDeletedRow(e: RegionRow, now: Time): (r: RegionRow)
    ensures r.SoftDeleted() && r.deletedAt == Some(now)
    ensures r.(isDeleted := e.isDeleted, deletedAt := e.deletedAt) == e
  {
    e.(isDeleted := Some(true), deletedAt := Some(now))
  }

  /** The condition `findByImageId` selects on. */
  function OfImage(imageId: nat): RegionRow -> bool
  {
    (r: RegionRow) => r.image == Some(imageId)
  }

  /** `findByImageId`: the regions of one image, in key order. */
  function ImageRegions(regions: map<nat, RegionRow>, nextId: nat, imageId: nat): (rs: seq<RegionRow>)
    ensures forall r :: r in rs ==> r.image == Some(imageId)
  {
    Seqs.Filter(Rows(regions, 0, nextId), OfImage(imageId))
  }

  /** The first region whose external identifier is `errorId`. */
  function FindByExternalId(rs: seq<RegionRow>, errorId: Uuid): (r: Option<RegionRow>)
    ensures r.Some? ==> r.value in rs && ExternalId(r.value.dbId) == errorId
    ensures r.None? ==> forall x :: x in rs ==> ExternalId(x.dbId) != errorId
  {
    if rs == [] then None
    else if ExternalId(rs[0].dbId) == errorId then Some(rs[0])
    else FindByExternalId(rs[1..], errorId)
  }

  /** The region of image `imageId` that `errorId` designates. */
  function Resolve(regions: map<nat, RegionRow>, nextId: nat, imageId: nat, errorId: Uuid): Option<RegionRow>
  {
    FindByExternalId(ImageRegions(regions, nextId, imageId), errorId)
  }

  /** Every listed region is the stored row of its own key. */
  lemma ListedIsStored(regions: map<nat, RegionRow>, nextId: nat, imageId: nat, e: RegionRow)
    requires RegionsKeyed(regions)
    requires e in ImageRegions(regions, nextId, imageId)
    ensures e.dbId.Some? && e.dbId.value in regions && regions[e.dbId.value] == e
    ensures e.image == Some(imageId)
  {
    RowsMembers(regions, 0, nextId, e);
  }

  /** The scan finds the region whose key the identifier names, when that key
      holds a region of this image, and nothing otherwise: the first match is
      the only possible match. */
  lemma ResolveByKey(regions: map<nat, RegionRow>, nextId: nat, imageId: nat, errorId: Uuid)
    requires RegionsKeyed(regions) && KeysBelow(regions, nextId)
    ensures var r := Resolve(regions, nextId, imageId, errorId);
      r.Some? <==> exists k :: k in regions && regions[k].image == Some(imageId) && errorId == ExternalId(Some(k))
    ensures forall k :: k in regions && errorId == ExternalId(Some(k)) && regions[k].image == Some(imageId) ==>
      Resolve(regions, nextId, imageId, errorId) == Some(regions[k])
  {
    var rs := ImageRegions(regions, nextId, imageId);
    var r := Resolve(regions, nextId, imageId, errorId);
    forall k | k in regions && regions[k].image == Some(imageId) && errorId == ExternalId(Some(k))
      ensures r == Some(regions[k])
    {
      RowsMembers(regions, 0, nextId, regions[k]);
      assert regions[k] in rs;
      ListedIsStored(regions, nextId, imageId, r.value);
      ExternalIdInjective(r.value.dbId, Some(k));
    }
    if r.Some? {
      ListedIsStored(regions, nextId, imageId, r.value);
    }
  }

  /** `createErrorAnnotation`: NotFound (and nothing saved) for an unknown
      image; otherwise one new region under a fresh key. */
  method CreateErrorAnnotation(db: Db, req: CreateRequest, now: Time) returns (res: Result<ErrorAnnotation>)
    requires db.Valid()
    modifies db`regions, db`nextId
    ensures db.Valid()
    ensures req.imageId !in db.images ==>
      res == Err(NotFound) && db.regions == old(db.regions) && db.nextId == old(db.nextId)
    ensures req.imageId in db.images ==>
      var saved := CreatedRow(req, now).(dbId := Some(old(db.nextId)));
      && db.nextId == old(db.nextId) + 1
      && db.regions == old(db.regions)[old(db.nextId) := Persisted(saved)]
      && res == Ok(CreatedResponse(req, saved))
  {
    if req.imageId !in db.images {
      return Err(NotFound);
    }
    var fr := new FaultRegion();
    fr.SetBoundingBox(Some(CreatedBox(req.cx, req.cy, req.w, req.h)));
    fr.SetCentroid(Some(Centroid(TruncateOpt(req.cx), TruncateOpt(req.cy))));
    fr.SetType(req.labelText);
    fr.SetTag(req.status);
    fr.SetConfidence(req.confidence);
    fr.SetColorRgb(req.colorRgb);
    fr.SetImage(Some(req.imageId));
    fr.SetComment(req.comment);
    fr.SetIsManual(Some(req.isManual.GetOr(true)));
    fr.SetCreatedAt(Some(req.createdAt.GetOr(now)));
    fr.SetCreatedBy(Some(req.createdBy.GetOr(Unknown)));
    assert fr.Data() == CreatedRow(req, now);
    var id := db.InsertRegion(fr.Data());
    // the saved instance carries its new key; the embedded parts stay as built
    fr.row := fr.row.(dbId := Some(id));
    res := Ok(CreatedResponse(req, fr.Data()));
  }

  /** `updateErrorAnnotation`: NotFound for an unknown image or an identifier
      that names no region of it (nothing saved); otherwise the patched row
      replaces the region, soft-deleted or not. */
  method UpdateErrorAnnotation(db: Db, imageId: nat, errorId: Uuid, req: UpdateRequest, now: Time)
    returns (res: Result<ErrorAnnotation>)
    requires db.Valid()
    modifies db`regions
    ensures db.Valid()
    ensures imageId !in db.images ==> res == Err(NotFound) && db.regions == old(db.regions)
    ensures imageId in db.images && Resolve(old(db.regions), db.nextId, imageId, errorId).None? ==>
      res == Err(NotFound) && db.regions == old(db.regions)
    ensures imageId in db.images && Resolve(old(db.regions), db.nextId, imageId, errorId).Some? ==>
      var e := Resolve(old(db.regions), db.nextId, imageId, errorId).value;
      && e.dbId.Some? && e.dbId.value in old(db.regions)
      && db.regions == old(db.regions)[e.dbId.value := Persisted(UpdatedRow(e, req, now))]
      && res == Ok(FromFaultRegion(UpdatedRow(e, req, now), db.images[imageId].createdAt, now, Random(0)))
  {
    if imageId !in db.images {
      return Err(NotFound);
    }
    var found := FindByExternalId(ImageRegions(db.regions, db.nextId, imageId), errorId);
    if found.None? {
      return Err(NotFound);
    }
    var e := found.value;
    ListedIsStored(db.regions, db.nextId, imageId, e);
    var fr := new FaultRegion.Load(e);
    PatchGeometry(fr, req);
    PatchFields(fr, req, now);
    db.UpdateRegion(fr.Data());
    res := Ok(FromFaultRegion(fr.Data(), db.images[imageId].createdAt, now, Random(0)));
  }

  /** `deleteErrorAnnotation`: NotFound as for update; IllegalState (and
      nothing saved) when the region is already soft-deleted; otherwise the
      row is kept, flagged deleted and stamped. */
  method SoftDeleteErrorAnnotation(db: Db, imageId: nat, errorId: Uuid, now: Time)
    returns (res: Result<ErrorAnnotation>)
    requires db.Valid()
    modifies db`regions
    ensures db.Valid()
    ensures imageId !in db.images ==> res == Err(NotFound) && db.regions == old(db.regions)
    ensures imageId in db.images && Resolve(old(db.regions), db.nextId, imageId, errorId).None? ==>
      res == Err(NotFound) && db.regions == old(db.regions)
    ensures imageId in db.images && Resolve(old(db.regions), db.nextId, imageId, errorId).Some? ==>
      var e := Resolve(old(db.regions), db.nextId, imageId, errorId).value;
      && e.dbId.Some? && e.dbId.value in old(db.regions)
      && (e.SoftDeleted() ==> res == Err(IllegalState) && db.regions == old(db.regions))
      && (!e.SoftDeleted() ==>
            && db.regions == old(db.regions)[e.dbId.value := Persisted(SoftDeletedRow(e, now))]
            && res == Ok(FromFaultRegion(SoftDeletedRow(e, now), db.images[imageId].createdAt, now, Random(0))))
  {
    if imageId !in db.images {
      return Err(NotFound);
    }
    var found := FindByExternalId(ImageRegions(db.regions, db.nextId, imageId), errorId);
    if found.None? {
      return Err(NotFound);
    }
    var e := found.value;
    ListedIsStored(db.regions, db.nextId, imageId, e);
    if e.isDeleted.Some? && e.isDeleted.value {
      return Err(IllegalState);
    }
    var fr := new FaultRegion.Load(e);
    fr.SetIsDeleted(Some(true));
    fr.SetDeletedAt(Some(now));
    db.UpdateRegion(fr.Data());
    res := Ok(FromFaultRegion(fr.Data(), db.images[imageId].createdAt, now, Random(0)));
  }

  /** The geometry part of an update, on the loaded entity. */
  method PatchGeometry(fr: FaultRegion, req: UpdateRequest)
    modifies fr
    ensures fr.Data() == PatchedGeometry(old(fr.Data()), req)
  {
    if GeometryGiven(req) {
      var box := PatchBox(fr.Data().boundingBox.GetOr(EmptyBox), req);
      fr.SetBoundingBox(Some(box));
      var c := PatchCentroid(fr.Data().centroid.GetOr(EmptyCentroid), req);
      fr.SetCentroid(Some(c));
    }
  }

  /** The field patch, stamps and hand-edited mark of an update, on the loaded entity. */
  method PatchFields(fr: FaultRegion, req: UpdateRequest, now: Time)
    modifies fr
    ensures fr.Data() == PatchedFields(old(fr.Data()), req, now)
  {
    if req.labelText.Some? {
      fr.SetType(req.labelText);
    }
    if req.status.Some? {
      fr.SetTag(req.status);
    }
    if req.confidence.Some? {
      fr.SetConfidence(req.confidence);
    }
    if req.colorRgb.Some? {
      fr.SetColorRgb(req.colorRgb);
    }
    if req.comment.Some? {
      fr.SetComment(req.comment);
    }
    fr.SetLastModifiedAt(Some(req.lastModifiedAt.GetOr(now)));
    fr.SetLastModifiedBy(Some(req.lastModifiedBy.GetOr(Unknown)));
    if fr.Data().isManual != Some(true) {
      fr.SetIsManual(Some(true));
    }
  }

  /** A centre on the grid and an even width give an exact corner and width. */
  lemma EvenWidthCorner(c: int, k: int)
    ensures Corner(c as real, 2.0 * k as real) == c - k && Truncate(2.0 * k as real) == 2 * k
  {
    assert c as real - (2.0 * k as real) / 2.0 == (c - k) as real;
    assert 2.0 * k as real == (2 * k) as real;
  }

  /** With an odd width the corner is rounded up by a half. */
  lemma OddWidthCorner(c: int, k: int)
    ensures Corner(c as real, 2.0 * k as real + 1.0) == c - k && Truncate(2.0 * k as real + 1.0) == 2 * k + 1
  {
    assert c as real - (2.0 * k as real + 1.0) / 2.0 == (c - k) as real - 0.5;
    assert 2.0 * k as real + 1.0 == (2 * k + 1) as real;
  }

  /** The centre reported for a created box comes back exactly when the width
      is even: the corner is rounded, and half an odd width is not integral. */
  lemma CreatedCentreReported(req: CreateRequest, now: Time, id: nat, imageCreated: Time, n: Time, c: int, k: int)
    requires req.cx == Some(c as real) && req.w == Some(2.0 * k as real)
    ensures FromFaultRegion(Persisted(CreatedRow(req, now).(dbId := Some(id))), imageCreated, n, Random(0)).cx == req.cx
  {
    var row := CreatedRow(req, now).(dbId := Some(id));
    var b := CreatedBox(req.cx, req.cy, req.w, req.h);
    EvenWidthCorner(c, k);
    assert b.x == Some(c - k) && b.width == Some(2 * k);
    assert Persisted(row).boundingBox == Some(b) by {
      assert row.boundingBox == Some(b) && !b.IsEmpty();
    }
    assert (c - k) as real + (2 * k) as real / 2.0 == c as real;
  }

  lemma CreatedCentreOddWidth(req: CreateRequest, now: Time, id: nat, imageCreated: Time, n: Time, c: int, k: int)
    requires req.cx == Some(c as real) && req.w == Some(2.0 * k as real + 1.0)
    ensures FromFaultRegion(Persisted(CreatedRow(req, now).(dbId := Some(id))), imageCreated, n, Random(0)).cx
            == Some(c as real + 0.5)
  {
    var row := CreatedRow(req, now).(dbId := Some(id));
    var b := CreatedBox(req.cx, req.cy, req.w, req.h);
    OddWidthCorner(c, k);
    assert b.x == Some(c - k) && b.width == Some(2 * k + 1);
    assert Persisted(row).boundingBox == Some(b) by {
      assert row.boundingBox == Some(b) && !b.IsEmpty();
    }
    assert (c - k) as real + (2 * k + 1) as real / 2.0 == c as real + 0.5;
  }

  /** A point annotation (no size) is stored without a box, so its view is
      taken from the centroid: the truncated centre, and no size. */
  lemma CreatedPointViewedAtCentroid(req: CreateRequest, now: Time, id: nat, imageCreated: Time, n: Time)
    requires req.w.None? && req.h.None? && req.cx.Some? && req.cy.Some?
    ensures var a := FromFaultRegion(Persisted(CreatedRow(req, now).(dbId := Some(id))), imageCreated, n, Random(0));
      && a.cx == Some(Truncate(req.cx.value) as real) && a.cy == Some(Truncate(req.cy.value) as real)
      && a.w.None? && a.h.None? && a.isPoint
  {
    assert CreatedBox(req.cx, req.cy, req.w, req.h).IsEmpty();
  }

  /** The delete response still reports the region as live: the view hard-codes
      `isDeleted = false` whatever the row holds. */
  lemma DeleteResponseReportsLive(e: RegionRow, now: Time, t: Time)
    ensures FromFaultRegion(SoftDeletedRow(e, now), t, now, Random(0)).isDeleted == false
    ensures FromFaultRegion(SoftDeletedRow(e, now), t, now, Random(0)).deletedAt.None?
  {
  }
}
