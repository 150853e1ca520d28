/** The fault-region entity: one detected or hand-drawn anomaly on a
    maintenance image, with its embedded bounding box and centroid and the
    annotation audit fields. */
module FaultRegionModel {
  import opened Common

  /** The embedded bounding box; every column is nullable. */
  datatype BoundingBox = BoundingBox(
    x: Option<int>, y: Option<int>, width: Option<int>, height: Option<int>, areaPx: Option<int>)
  {
    predicate IsEmpty()
    {
      x.None? && y.None? && width.None? && height.None? && areaPx.None?
    }
  }

  const EmptyBox := BoundingBox(None, None, None, None, None)

  /** The embedded centroid; both columns are nullable. */
  datatype Centroid = Centroid(x: Option<int>, y: Option<int>)
  {
    predicate IsEmpty()
    {
      x.None? && y.None?
    }
  }

  const EmptyCentroid := Centroid(None, None)

  /** The state of one fault-region row. `image` holds the id of the owning image. */
  datatype RegionRow = RegionRow(
    dbId: Option<nat>,
    regionId: Option<int>,
    faultType: Option<string>,
    dominantColor: Option<string>,
    colorRgb: Option<seq<int>>,
    boundingBox: Option<BoundingBox>,
    centroid: Option<Centroid>,
    aspectRatio: Option<real>,
    elongated: Option<bool>,
    connectedToWire: Option<bool>,
    tag: Option<string>,
    confidence: Option<real>,
    image: Option<nat>,
    comment: Option<string>,
    isManual: Option<bool>,
    createdAt: Option<Time>,
    createdBy: Option<string>,
    lastModifiedAt: Option<Time>,
    lastModifiedBy: Option<string>,
    isDeleted: Option<bool>,
    deletedAt: Option<Time>)
  {
    /** `isDeleted != null && isDeleted`. */
    predicate SoftDeleted()
    {
      isDeleted == Some(true)
    }
  }

  /** A freshly constructed entity: every field null. */
  const BlankRow := RegionRow(None, None, None, None, None, None, None, None, None, None, None,
                              None, None, None, None, None, None, None, None, None, None)

  /** An entity instance as the services hold it: fields updated through setters. */
  class FaultRegion {
    var row: RegionRow

    /** The values of all fields. */
    function Data(): RegionRow
      reads this
    {
      row
    }

    /** `new FaultRegion()`. */
    constructor ()
      ensures Data() == BlankRow
    {
      row := BlankRow;
    }

    /** An instance loaded from a stored row. */
    constructor Load(r: RegionRow)
      ensures Data() == r
    {
      row := r;
    }

    method SetRegionId(v: Option<int>)
      modifies this
      ensures Data() == old(Data()).(regionId := v)
    {
      row := row.(regionId := v);
    }

    method SetType(v: Option<string>)
      modifies this
      ensures Data() == old(Data()).(faultType := v)
    {
      row := row.(faultType := v);
    }

    method SetDominantColor(v: Option<string>)
      modifies this
      ensures Data() == old(Data()).(dominantColor := v)
    {
      row := row.(dominantColor := v);
    }

    method SetColorRgb(v: Option<seq<int>>)
      modifies this
      ensures Data() == old(Data()).(colorRgb := v)
    {
      row := row.(colorRgb := v);
    }

    method SetBoundingBox(v: Option<BoundingBox>)
      modifies this
      ensures Data() == old(Data()).(boundingBox := v)
    {
      row := row.(boundingBox := v);
    }

    method SetCentroid(v: Option<Centroid>)
      modifies this
      ensures Data() == old(Data()).(centroid := v)
    {
      row := row.(centroid := v);
    }

    method SetAspectRatio(v: Option<real>)
      modifies this
      ensures Data() == old(Data()).(aspectRatio := v)
    {
      row := row.(aspectRatio := v);
    }

    method SetElongated(v: Option<bool>)
      modifies this
      ensures Data() == old(Data()).(elongated := v)
    {
      row := row.(elongated := v);
    }

    method SetConnectedToWire(v: Option<bool>)
      modifies this
      ensures Data() == old(Data()).(connectedToWire := v)
    {
      row := row.(connectedToWire := v);
    }

    method SetTag(v: Option<string>)
      modifies this
      ensures Data() == old(Data()).(tag := v)
    {
      row := row.(tag := v);
    }

    method SetConfidence(v: Option<real>)
      modifies this
      ensures Data() == old(Data()).(confidence := v)
    {
      row := row.(confidence := v);
    }

    method SetImage(v: Option<nat>)
      modifies this
      ensures Data() == old(Data()).(image := v)
    {
      row := row.(image := v);
    }

    method SetComment(v: Option<string>)
      modifies this
      ensures Data() == old(Data()).(comment := v)
    {
      row := row.(comment := v);
    }

    method SetIsManual(v: Option<bool>)
      modifies this
      ensures Data() == old(Data()).(isManual := v)
    {
      row := row.(isManual := v);
    }

    method SetCreatedAt(v: Option<Time>)
      modifies this
      ensures Data() == old(Data()).(createdAt := v)
    {
      row := row.(createdAt := v);
    }

    method SetCreatedBy(v: Option<string>)
      modifies this
      ensures Data() == old(Data()).(createdBy := v)
    {
      row := row.(createdBy := v);
    }

    method SetLastModifiedAt(v: Option<Time>)
      modifies this
      ensures Data() == old(Data()).(lastModifiedAt := v)
    {
      row := row.(lastModifiedAt := v);
    }

    method SetLastModifiedBy(v: Option<string>)
      modifies this
      ensures Data() == old(Data()).(lastModifiedBy := v)
    {
      row := row.(lastModifiedBy := v);
    }

    method SetIsDeleted(v: Option<bool>)
      modifies this
      ensures Data() == old(Data()).(isDeleted := v)
    {
      row := row.(isDeleted := v);
    }

    method SetDeletedAt(v: Option<Time>)
      modifies this
      ensures Data() == old(Data()).(deletedAt := v)
    {
      row := row.(deletedAt := v);
    }
  }
}
