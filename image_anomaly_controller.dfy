/** The read-only anomaly views of an image: its fault regions, the detector
    results with their display metadata, and the comparison report that sets
    the verbatim detector reply beside the current, hand-edited regions. Each
    is a function of the store, so none of them writes. */
module ImageAnomalyController {
  import opened Common
  import opened FaultRegionModel
  import opened Entities
  import opened Database
  import opened FaultRegionDto
  import opened ErrorAnnotationService
  import opened ImageErrorAnnotationController
  import opened Json
  import Seqs

  /** `getFaultRegions`: needs the image to exist, of any type. */
  function GetFaultRegions(t: Tables, imageId: nat): (res: Result<seq<RegionView>>)
    ensures imageId !in t.images <==> res == Err(NotFound)
    ensures res.Ok? ==> res.value == FromEntities(ByRegionId(t.regions, t.nextId, imageId))
  {
    if imageId !in t.images then Err(NotFound)
    else Ok(FromEntities(ByRegionId(t.regions, t.nextId, imageId)))
  }

  datatype AnomalyResults = AnomalyResults(faultRegions: seq<RegionView>, displayMetadata: Option<DisplayMetadata>)

  /** `getAnomalyResults`. */
  function GetAnomalyResults(t: Tables, imageId: nat): (res: Result<AnomalyResults>)
    ensures imageId !in t.images ==> res == Err(NotFound)
    ensures imageId in t.images && t.images[imageId].imageType != Maintenance <==> res == Err(BadRequest)
    // with a maintenance image, 404 exactly when there is nothing to show
    ensures imageId in t.images && t.images[imageId].imageType == Maintenance ==>
      (res == Err(NotFound) <==> ImageRegions(t.regions, t.nextId, imageId) == [] && imageId !in t.metadata)
    ensures res.Ok? ==> res.value.faultRegions == FromEntities(ByRegionId(t.regions, t.nextId, imageId))
    // the display_metadata entry is present exactly when the image has metadata
    ensures res.Ok? ==> (res.value.displayMetadata.Some? <==> imageId in t.metadata)
    ensures res.Ok? && imageId in t.metadata ==> res.value.displayMetadata == Some(t.metadata[imageId])
  {
    if imageId !in t.images then Err(NotFound)
    else if t.images[imageId].imageType != Maintenance then Err(BadRequest)
    else
      var rows := ByRegionId(t.regions, t.nextId, imageId);
      if rows == [] && imageId !in t.metadata then Err(NotFound)
      else Ok(AnomalyResults(FromEntities(rows),
                             if imageId in t.metadata then Some(t.metadata[imageId]) else None))
  }

  datatype ImageInfo = ImageInfo(
    imageId: nat, filename: string, uploadedAt: Time, uploader: string,
    inspection: Option<(nat, string)>)

  /** The stored detector reply as the report shows it. */
  datatype OriginalView = OriginalView(receivedAt: Time, data: Json)

  /** The edit summary: how many regions there are, how many were added or
      edited by hand, flagged deleted, or modified after detection. */
  datatype EditSummary = EditSummary(totalRegions: nat, manuallyAdded: nat, deleted: nat, modified: nat)

  predicate IsManualRegion(r: RegionRow) { r.isManual == Some(true) }
  predicate IsDeletedRegion(r: RegionRow) { r.isDeleted == Some(true) }
  predicate IsModifiedRegion(r: RegionRow) { r.lastModifiedAt.Some? }

  function Summarise(rs: seq<RegionRow>): (s: EditSummary)
    ensures s.totalRegions == |rs|
    ensures s.manuallyAdded <= s.totalRegions && s.deleted <= s.totalRegions && s.modified <= s.totalRegions
  {
    EditSummary(|rs|, Seqs.Count(rs, IsManualRegion), Seqs.Count(rs, IsDeletedRegion), Seqs.Count(rs, IsModifiedRegion))
  }

  datatype CurrentResults = CurrentResults(
    faultRegions: seq<RegionView>, displayMetadata: Option<DisplayMetadata>, editSummary: EditSummary)

  datatype Comparison = Comparison(
    imageInfo: ImageInfo, originalResults: Option<OriginalView>, currentResults: CurrentResults, generatedAt: Time)

  function Info(t: Tables, imageId: nat): (info: ImageInfo)
    requires ValidTables(t) && imageId in t.images
    ensures info.inspection.Some? <==> t.images[imageId].inspection.Some?
  {
    var img := t.images[imageId];
    ImageInfo(imageId, img.filename, img.createdAt, img.uploader,
              if img.inspection.Some?
              then Some((img.inspection.value, t.inspections[img.inspection.value].title))
              else None)
  }

  /** The stored reply, when there is one and it parses. */
  function Original(t: Tables, imageId: nat, parse: string -> Option<Json>): (o: Option<OriginalView>)
    ensures o.Some? <==> imageId in t.originals && parse(t.originals[imageId].anomalyJson).Some?
    ensures o.Some? ==>
      o.value == OriginalView(t.originals[imageId].createdAt, parse(t.originals[imageId].anomalyJson).value)
  {
    if imageId in t.originals then
      var parsed := parse(t.originals[imageId].anomalyJson);
      if parsed.Some? then Some(OriginalView(t.originals[imageId].createdAt, parsed.value)) else None
    else None
  }

  /** `downloadAnomalyComparison`. `parse` is the JSON reader, `now` the clock. */
  function AnomalyComparison(t: Tables, imageId: nat, parse: string -> Option<Json>, now: Time): (res: Result<Comparison>)
    requires ValidTables(t)
    ensures imageId !in t.images <==> res == Err(NotFound)
    ensures imageId in t.images && t.images[imageId].imageType != Maintenance <==> res == Err(BadRequest)
    ensures res.Ok? ==> res.value.originalResults == Original(t, imageId, parse)
    ensures res.Ok? ==>
      var rows := ByRegionId(t.regions, t.nextId, imageId);
      && res.value.currentResults.faultRegions == FromEntities(rows)
      && res.value.currentResults.editSummary == Summarise(rows)
      && res.value.currentResults.displayMetadata == (if imageId in t.metadata then Some(t.metadata[imageId]) else None)
    ensures res.Ok? ==> res.value.generatedAt == now && res.value.imageInfo.imageId == imageId
  {
    if imageId !in t.images then Err(NotFound)
    else if t.images[imageId].imageType != Maintenance then Err(BadRequest)
    else
      var rows := ByRegionId(t.regions, t.nextId, imageId);
      Ok(Comparison(
        Info(t, imageId),
        Original(t, imageId, parse),
        CurrentResults(FromEntities(rows),
                       if imageId in t.metadata then Some(t.metadata[imageId]) else None,
                       Summarise(rows)),
        now))
  }

  /** The current regions of the report include the soft-deleted ones: every
      stored region of the image appears. */
  lemma ComparisonShowsDeleted(t: Tables, imageId: nat, parse: string -> Option<Json>, now: Time, k: nat)
    requires ValidTables(t) && imageId in t.images && t.images[imageId].imageType == Maintenance
    requires k in t.regions && t.regions[k].image == Some(imageId)
    ensures FromEntity(t.regions[k]) in AnomalyComparison(t, imageId, parse, now).value.currentResults.faultRegions
  {
    StoredIsListed(t.regions, t.nextId, imageId, true, k);
    var rows := ByRegionId(t.regions, t.nextId, imageId);
    var i :| 0 <= i < |rows| && rows[i] == t.regions[k];
    assert FromEntities(rows)[i] == FromEntity(t.regions[k]);
  }

  /** The summary counts the image's rows in key order as well as in region-id
      order. */
  lemma SummaryOrderFree(regions: map<nat, RegionRow>, nextId: nat, imageId: nat)
    ensures Summarise(ByRegionId(regions, nextId, imageId)) == Summarise(ImageRegions(regions, nextId, imageId))
  {
    var s, r := ImageRegions(regions, nextId, imageId), ByRegionId(regions, nextId, imageId);
    ByRegionIdCorrect(regions, nextId, imageId);
    Seqs.CountPermutation(r, s, IsManualRegion);
    Seqs.CountPermutation(r, s, IsDeletedRegion);
    Seqs.CountPermutation(r, s, IsModifiedRegion);
  }

  /** Replacing the row under key `k` by `v` changes a count over the rows by
      what `p` says of the old and the new row. */
  lemma {:induction false} CountRowsReplace(m: map<nat, RegionRow>, lo: nat, hi: nat, k: nat, v: RegionRow,
                                            p: RegionRow -> bool)
    requires k in m && lo <= k < hi
    ensures Seqs.Count(Rows(m[k := v], lo, hi), p) + (if p(m[k]) then 1 else 0)
         == Seqs.Count(Rows(m, lo, hi), p) + (if p(v) then 1 else 0)
    decreases hi - lo
  {
    if lo == k {
      RowsOutside(m[k := v], m, lo + 1, hi);
    } else {
      CountRowsReplace(m, lo + 1, hi, k, v, p);
    }
  }

  /** The count over the image's rows, as a count over all rows. */
  lemma ImageCount(regions: map<nat, RegionRow>, nextId: nat, imageId: nat, p: RegionRow -> bool)
    ensures Seqs.Count(ImageRegions(regions, nextId, imageId), p)
         == Seqs.Count(Rows(regions, 0, nextId), Seqs.Both(OfImage(imageId), p))
  {
    Seqs.CountFilter(Rows(regions, 0, nextId), OfImage(imageId), p);
  }

  /** A count over the image's rows after replacing the row under `k` by a row
      of the same image. */
  lemma ImageCountReplace(regions: map<nat, RegionRow>, nextId: nat, imageId: nat, k: nat, v: RegionRow,
                          p: RegionRow -> bool)
    requires k in regions && k < nextId && regions[k].image == Some(imageId) && v.image == Some(imageId)
    ensures Seqs.Count(ImageRegions(regions[k := v], nextId, imageId), p) + (if p(regions[k]) then 1 else 0)
         == Seqs.Count(ImageRegions(regions, nextId, imageId), p) + (if p(v) then 1 else 0)
  {
    ImageCount(regions, nextId, imageId, p);
    ImageCount(regions[k := v], nextId, imageId, p);
    CountRowsReplace(regions, 0, nextId, k, v, Seqs.Both(OfImage(imageId), p));
  }

  /** Replacing a row of the image by another row of the image: the number of
      rows stays, each count moves by what the old and new rows say. */
  lemma SummaryReplace(regions: map<nat, RegionRow>, nextId: nat, imageId: nat, k: nat, v: RegionRow)
    requires k in regions && k < nextId && regions[k].image == Some(imageId) && v.image == Some(imageId)
    ensures var before := Summarise(ByRegionId(regions, nextId, imageId));
      var after := Summarise(ByRegionId(regions[k := v], nextId, imageId));
      && after.totalRegions == before.totalRegions
      && after.manuallyAdded + (if IsManualRegion(regions[k]) then 1 else 0)
         == before.manuallyAdded + (if IsManualRegion(v) then 1 else 0)
      && after.deleted + (if IsDeletedRegion(regions[k]) then 1 else 0)
         == before.deleted + (if IsDeletedRegion(v) then 1 else 0)
      && after.modified + (if IsModifiedRegion(regions[k]) then 1 else 0)
         == before.modified + (if IsModifiedRegion(v) then 1 else 0)
  {
    SummaryOrderFree(regions, nextId, imageId);
    SummaryOrderFree(regions[k := v], nextId, imageId);
    ImageCountReplace(regions, nextId, imageId, k, v, IsManualRegion);
    ImageCountReplace(regions, nextId, imageId, k, v, IsDeletedRegion);
    ImageCountReplace(regions, nextId, imageId, k, v, IsModifiedRegion);
    ImageCountReplace(regions, nextId, imageId, k, v, (r: RegionRow) => true);
    Seqs.CountIsFilterLength(ImageRegions(regions, nextId, imageId), (r: RegionRow) => true);
    Seqs.CountIsFilterLength(ImageRegions(regions[k := v], nextId, imageId), (r: RegionRow) => true);
    Seqs.FilterAll(ImageRegions(regions, nextId, imageId), (r: RegionRow) => true);
    Seqs.FilterAll(ImageRegions(regions[k := v], nextId, imageId), (r: RegionRow) => true);
  }

  /** A soft delete is counted as one more deletion and as nothing else: it
      neither stamps the region as modified nor changes the total. */
  lemma SoftDeleteSummary(regions: map<nat, RegionRow>, nextId: nat, imageId: nat, k: nat, now: Time)
    requires k in regions && k < nextId && regions[k].image == Some(imageId) && !regions[k].SoftDeleted()
    ensures var before := Summarise(ByRegionId(regions, nextId, imageId));
      var after := Summarise(ByRegionId(regions[k := Persisted(SoftDeletedRow(regions[k], now))], nextId, imageId));
      after == before.(deleted := before.deleted + 1)
  {
    SummaryReplace(regions, nextId, imageId, k, Persisted(SoftDeletedRow(regions[k], now)));
  }

  /** An update makes the region count as manually added and as modified,
      whatever it was before; deletions and the total stay. */
  lemma UpdateSummary(regions: map<nat, RegionRow>, nextId: nat, imageId: nat, k: nat, req: UpdateRequest, now: Time)
    requires k in regions && k < nextId && regions[k].image == Some(imageId)
    ensures var before := Summarise(ByRegionId(regions, nextId, imageId));
      var after := Summarise(ByRegionId(regions[k := Persisted(UpdatedRow(regions[k], req, now))], nextId, imageId));
      && after.totalRegions == before.totalRegions && after.deleted == before.deleted
      && after.manuallyAdded == before.manuallyAdded + (if IsManualRegion(regions[k]) then 0 else 1)
      && after.modified == before.modified + (if IsModifiedRegion(regions[k]) then 0 else 1)
  {
    SummaryReplace(regions, nextId, imageId, k, Persisted(UpdatedRow(regions[k], req, now)));
  }
}
