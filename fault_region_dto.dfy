/** The detector-facing view of a fault region used by the anomaly listings
    and the comparison report: a null-checked field projection that exposes
    the detection attributes and hides the annotation audit trail. */
module FaultRegionDto {
  import opened Common
  import opened FaultRegionModel

  datatype BoxView = BoxView(x: Option<int>, y: Option<int>, width: Option<int>, height: Option<int>, areaPx: Option<int>)

  datatype CentroidView = CentroidView(x: Option<int>, y: Option<int>)

  datatype RegionView = RegionView(
    dbId: Option<nat>,
    regionId: Option<int>,
    faultType: Option<string>,
    dominantColor: Option<string>,
    colorRgb: Option<seq<int>>,
    boundingBox: Option<BoxView>,
    centroid: Option<CentroidView>,
    aspectRatio: Option<real>,
    elongated: Option<bool>,
    connectedToWire: Option<bool>,
    tag: Option<string>,
    confidence: Option<real>,
    createdBy: Option<string>)

  /** `fromEntity`. */
  function FromEntity(e: RegionRow): (v: RegionView)
    ensures v.boundingBox.Some? <==> e.boundingBox.Some?
    ensures e.boundingBox.Some? ==>
      var bb := e.boundingBox.value;
      v.boundingBox.value == BoxView(bb.x, bb.y, bb.width, bb.height, bb.areaPx)
    ensures v.centroid.Some? <==> e.centroid.Some?
    ensures e.centroid.Some? ==> v.centroid.value == CentroidView(e.centroid.value.x, e.centroid.value.y)
    ensures v.dbId == e.dbId && v.regionId == e.regionId && v.faultType == e.faultType
    ensures v.dominantColor == e.dominantColor && v.colorRgb == e.colorRgb
    ensures v.aspectRatio == e.aspectRatio && v.elongated == e.elongated
    ensures v.connectedToWire == e.connectedToWire && v.tag == e.tag && v.confidence == e.confidence
    ensures v.createdBy == e.createdBy
  {
    var box := if e.boundingBox.Some?
               then var bb := e.boundingBox.value; Some(BoxView(bb.x, bb.y, bb.width, bb.height, bb.areaPx))
               else None;
    var centroid := if e.centroid.Some?
                    then Some(CentroidView(e.centroid.value.x, e.centroid.value.y))
                    else None;
    RegionView(e.dbId, e.regionId, e.faultType, e.dominantColor, e.colorRgb, box, centroid,
               e.aspectRatio, e.elongated, e.connectedToWire, e.tag, e.confidence, e.createdBy)
  }

  /** Two rows agree on every attribute the view exposes. */
  predicate SameExposed(a: RegionRow, b: RegionRow)
  {
    a.dbId == b.dbId && a.regionId == b.regionId && a.faultType == b.faultType
    && a.dominantColor == b.dominantColor && a.colorRgb == b.colorRgb
    && a.boundingBox == b.boundingBox && a.centroid == b.centroid
    && a.aspectRatio == b.aspectRatio && a.elongated == b.elongated
    && a.connectedToWire == b.connectedToWire && a.tag == b.tag && a.confidence == b.confidence
    && a.createdBy == b.createdBy
  }

  /** The view tells two rows apart exactly when they differ in an exposed
      attribute: it loses nothing it shows and shows nothing else. */
  lemma ViewsEqualIffSameExposed(a: RegionRow, b: RegionRow)
    ensures FromEntity(a) == FromEntity(b) <==> SameExposed(a, b)
  {
    if FromEntity(a) == FromEntity(b) {
      if a.boundingBox.Some? {
        var va, vb := FromEntity(a).boundingBox.value, FromEntity(b).boundingBox.value;
        assert va == vb;
      }
      if a.centroid.Some? {
        assert FromEntity(a).centroid.value == FromEntity(b).centroid.value;
      }
    }
  }

  /** The audit trail is invisible: soft deletion, hand edits, comments and
      stamps leave the view unchanged, so a comparison entry carries no
      deletion flag. */
  lemma AuditFieldsHidden(e: RegionRow, isManual: Option<bool>, isDeleted: Option<bool>, deletedAt: Option<Time>,
                          comment: Option<string>, modifiedAt: Option<Time>, modifiedBy: Option<string>,
                          createdAt: Option<Time>, image: Option<nat>)
    ensures FromEntity(e.(isManual := isManual, isDeleted := isDeleted, deletedAt := deletedAt, comment := comment,
                          lastModifiedAt := modifiedAt, lastModifiedBy := modifiedBy, createdAt := createdAt,
                          image := image))
            == FromEntity(e)
  {
    ViewsEqualIffSameExposed(e.(isManual := isManual, isDeleted := isDeleted, deletedAt := deletedAt,
                                comment := comment, lastModifiedAt := modifiedAt, lastModifiedBy := modifiedBy,
                                createdAt := createdAt, image := image), e);
  }

  /** The views of a sequence of rows, in the same order. */
  function FromEntities(rs: seq<RegionRow>): (vs: seq<RegionView>)
    ensures |vs| == |rs|
    ensures forall i :: 0 <= i < |rs| ==> vs[i] == FromEntity(rs[i])
  {
    seq(|rs|, i requires 0 <= i < |rs| => FromEntity(rs[i]))
  }
}
