/** The annotation view of a fault region: its external identifier, the
    centre/size derived from the stored geometry, and the status derived from
    the tag or the confidence. */
module ErrorAnnotationDto {
  import opened Common
  import opened FaultRegionModel
  import Text

  /** A UUID: name-based (version 3, from the bytes of a name) or random. The
      name-based form is modelled as an injective function of the name. */
  datatype Uuid = NameBased(name: string) | Random(seed: nat)

  const RegionNamePrefix := "fault-region-"

  /** `"fault-region-" + dbId`, with Java's rendering of a null id. */
  function RegionName(dbId: Option<nat>): string
  {
    RegionNamePrefix + (if dbId.Some? then Text.Decimal(dbId.value) else "null")
  }

  /** The external identifier of a region. */
  function ExternalId(dbId: Option<nat>): (u: Uuid)
    ensures u.NameBased?
  {
    NameBased(RegionName(dbId))
  }

  /** Distinct regions never share an external identifier, and the identifier
      depends on nothing but the store key. */
  lemma ExternalIdInjective(a: Option<nat>, b: Option<nat>)
    requires ExternalId(a) == ExternalId(b)
    ensures a == b
  {
    var n := |RegionNamePrefix|;
    var sa, sb := RegionName(a)[n..], RegionName(b)[n..];
    assert sa == (if a.Some? then Text.Decimal(a.value) else "null");
    assert sb == (if b.Some? then Text.Decimal(b.value) else "null");
    if a.Some? && b.Some? {
      Text.DecimalInjective(a.value, b.value);
    }
  }

  /** The response shape shared by all annotation endpoints. */
  datatype ErrorAnnotation = ErrorAnnotation(
    id: Uuid,
    imageId: Option<nat>,
    regionId: Option<string>,
    cx: Option<real>,
    cy: Option<real>,
    w: Option<real>,
    h: Option<real>,
    status: Option<string>,
    labelText: Option<string>,
    comment: Option<string>,
    confidence: Option<real>,
    colorRgb: Option<seq<int>>,
    isManual: Option<bool>,
    isPoint: bool,
    isDeleted: bool,
    createdAt: Option<Time>,
    createdBy: Option<string>,
    lastModifiedAt: Option<Time>,
    lastModifiedBy: Option<string>,
    deletedAt: Option<Time>)

  const Faulty := "FAULTY"
  const Potential := "POTENTIAL"
  const Normal := "NORMAL"

  predicate IsStatus(s: string)
  {
    s == Faulty || s == Potential || s == Normal
  }

  /** The status a tag names, if any: substring tests on the upper-cased tag,
      the groups tried in the order FAULTY|CRITICAL, POTENTIAL|WARNING, NORMAL|OK. */
  function TagStatus(tag: string): (s: Option<string>)
    ensures s.Some? ==> IsStatus(s.value)
  {
    var upper := Text.Upper(tag);
    if Text.Contains(upper, "FAULTY") || Text.Contains(upper, "CRITICAL") then Some(Faulty)
    else if Text.Contains(upper, "POTENTIAL") || Text.Contains(upper, "WARNING") then Some(Potential)
    else if Text.Contains(upper, "NORMAL") || Text.Contains(upper, "OK") then Some(Normal)
    else None
  }

  /** The status a confidence score falls into. */
  function ConfidenceStatus(confidence: real): (s: string)
    ensures IsStatus(s)
  {
    if confidence >= 0.85 then Faulty
    else if confidence >= 0.5 then Potential
    else Normal
  }

  /** `determineStatus`: a recognised tag decides; otherwise the confidence;
      with neither, POTENTIAL. */
  function DetermineStatus(tag: Option<string>, confidence: Option<real>): (s: string)
    ensures IsStatus(s)
    ensures tag.Some? && TagStatus(tag.value).Some? ==> s == TagStatus(tag.value).value
    ensures (tag.None? || TagStatus(tag.value).None?) && confidence.None? ==> s == Potential
  {
    if tag.Some? && TagStatus(tag.value).Some? then TagStatus(tag.value).value
    else if confidence.Some? then ConfidenceStatus(confidence.value)
    else Potential
  }

  /** The order of severity among the three statuses. */
  function Severity(s: string): nat
  {
    if s == Faulty then 2 else if s == Potential then 1 else 0
  }

  /** Without a recognised tag, a higher confidence never yields a milder status. */
  lemma ConfidenceMonotone(tag: Option<string>, c1: real, c2: real)
    requires tag.None? || TagStatus(tag.value).None?
    requires c1 <= c2
    ensures Severity(DetermineStatus(tag, Some(c1))) <= Severity(DetermineStatus(tag, Some(c2)))
  {
  }

  /** A tag whose upper-cased form contains FAULTY reads as FAULTY, whatever
      else it contains. */
  lemma FaultyTagWins(tag: string, i: int, confidence: Option<real>)
    requires Text.OccursAt(Text.Upper(tag), "FAULTY", i)
    ensures DetermineStatus(Some(tag), confidence) == Faulty
  {
    Text.ContainsOccurs(Text.Upper(tag), "FAULTY");
  }

  /** The tag groups are tried in order, so a tag naming two statuses takes
      the first group's: "Potentially Faulty" reads as FAULTY. */
  lemma FirstTagGroupWins(confidence: Option<real>)
    ensures DetermineStatus(Some("Potentially Faulty"), confidence) == Faulty
  {
    var tag := "Potentially Faulty";
    var upper := Text.Upper(tag);
    assert upper[12] == 'F' && upper[13] == 'A' && upper[14] == 'U';
    assert upper[15] == 'L' && upper[16] == 'T' && upper[17] == 'Y';
    assert upper[12..18] == "FAULTY";
    FaultyTagWins(tag, 12, confidence);
  }

  /** Case does not matter to the tag test: "critical" is FAULTY. */
  lemma LowerCaseTagRecognised(confidence: Option<real>)
    ensures DetermineStatus(Some("critical"), confidence) == Faulty
  {
    var upper := Text.Upper("critical");
    assert upper[0] == 'C' && upper[1] == 'R' && upper[2] == 'I' && upper[3] == 'T';
    assert upper[4] == 'I' && upper[5] == 'C' && upper[6] == 'A' && upper[7] == 'L';
    assert upper[0..8] == "CRITICAL";
    Text.ContainsOccurs(upper, "CRITICAL");
  }

  /** The centre and size a stored geometry reports: the box when there is one
      (centre = corner + half the size), otherwise the centroid with no size. */
  datatype Extent = Extent(cx: Option<real>, cy: Option<real>, w: Option<real>, h: Option<real>)

  function ExtentOf(box: Option<BoundingBox>, centroid: Option<Centroid>): (e: Extent)
    ensures box.Some? ==> e.w == (if box.value.width.Some? then Some(box.value.width.value as real) else None)
    ensures box.Some? ==> e.h == (if box.value.height.Some? then Some(box.value.height.value as real) else None)
    // with a box, the centre is its corner plus half its size: the centroid plays no part
    ensures box.Some? ==> e.cx == (if box.value.x.Some? && box.value.width.Some?
                                   then Some(box.value.x.value as real + box.value.width.value as real / 2.0) else None)
    ensures box.Some? ==> e.cy == (if box.value.y.Some? && box.value.height.Some?
                                   then Some(box.value.y.value as real + box.value.height.value as real / 2.0) else None)
    ensures box.None? ==> e.w.None? && e.h.None?
    ensures box.None? && centroid.None? ==> e == Extent(None, None, None, None)
  {
    match box
    case Some(bb) =>
      Extent(
        if bb.x.Some? && bb.width.Some? then Some(bb.x.value as real + bb.width.value as real / 2.0) else None,
        if bb.y.Some? && bb.height.Some? then Some(bb.y.value as real + bb.height.value as real / 2.0) else None,
        if bb.width.Some? then Some(bb.width.value as real) else None,
        if bb.height.Some? then Some(bb.height.value as real) else None)
    case None =>
      match centroid
      case Some(c) =>
        Extent(if c.x.Some? then Some(c.x.value as real) else None,
               if c.y.Some? then Some(c.y.value as real) else None, None, None)
      case None => Extent(None, None, None, None)
  }

  /** A point has no size in either direction (a missing size counts as 0). */
  predicate IsPointSize(w: Option<real>, h: Option<real>)
  {
    (w.None? || w.value == 0.0) && (h.None? || h.value == 0.0)
  }

  function RegionIdText(regionId: Option<int>): Option<string>
  {
    if regionId.Some? then Some("ai-region-" + Text.IntText(regionId.value)) else None
  }

  const AiSystem := "ai-system"

  /** `fromFaultRegion`. `imageCreatedAt` is the creation time of the region's
      image, `now` the clock and `randomId` the random UUID used when the
      region has no store key. */
  function FromFaultRegion(e: RegionRow, imageCreatedAt: Time, now: Time, randomId: Uuid): (a: ErrorAnnotation)
    ensures e.dbId.Some? ==> a.id == ExternalId(e.dbId)
    ensures a.imageId == e.image
    ensures var x := ExtentOf(e.boundingBox, e.centroid); a.cx == x.cx && a.cy == x.cy && a.w == x.w && a.h == x.h
    ensures a.status == Some(DetermineStatus(e.tag, e.confidence))
    ensures a.labelText == Some(e.faultType.GetOr("Unknown"))
    ensures a.isPoint <==> IsPointSize(a.w, a.h)
    ensures a.confidence == e.confidence && a.colorRgb == e.colorRgb
    // whatever the region holds, the view reports a detector-made, unedited, live region
    ensures a.isManual == Some(false) && !a.isDeleted && a.deletedAt.None? && a.comment.None?
    ensures a.createdBy == Some(AiSystem) && a.lastModifiedBy == Some(AiSystem)
    ensures a.createdAt == Some(if e.image.Some? then imageCreatedAt else now)
    ensures a.lastModifiedAt == a.createdAt
  {
    var x := ExtentOf(e.boundingBox, e.centroid);
    var created := if e.image.Some? then imageCreatedAt else now;
    ErrorAnnotation(
      id := if e.dbId.Some? then ExternalId(e.dbId) else randomId,
      imageId := e.image,
      regionId := RegionIdText(e.regionId),
      cx := x.cx, cy := x.cy, w := x.w, h := x.h,
      status := Some(DetermineStatus(e.tag, e.confidence)),
      labelText := Some(e.faultType.GetOr("Unknown")),
      comment := None,
      confidence := e.confidence,
      colorRgb := e.colorRgb,
      isManual := Some(false),
      isPoint := IsPointSize(x.w, x.h),
      isDeleted := false,
      createdAt := Some(created),
      createdBy := Some(AiSystem),
      lastModifiedAt := Some(created),
      lastModifiedBy := Some(AiSystem),
      deletedAt := None)
  }
}
