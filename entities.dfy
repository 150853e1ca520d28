/** The persistent entities around the fault regions: transformers, their
    inspections and images, the per-image display metadata and original
    detector result, maintenance records, users, questions and detector
    configurations. Rows of tables keyed by their own id omit that id. */
module Entities {
  import opened Common

  datatype ImageType = Baseline | Maintenance
  datatype Weather = Sunny | Cloudy | Rainy
  datatype EnvCondition = EnvCondition(
    temperatureC: Option<real>, humidity: Option<real>, weather: Option<Weather>, locationNote: Option<string>)
  datatype InspectionStatus = Open | InProgress | Closed
  /** Only the two occupations the code tests for are named. */
  datatype Occupation = Admin | MaintenanceEngineer | OtherOccupation(name: string)
  datatype MaintenanceStatus = AllOk | NeedsMaintenance | UrgentAttention

  datatype Transformer = Transformer(
    transformerNo: string, poleNo: string, region: string, transformerType: string)

  /** The owning transformer column is not nullable. */
  datatype Inspection = Inspection(
    transformer: nat, title: string, inspector: string, notes: Option<string>,
    status: InspectionStatus, createdAt: Time)

  /** An uploaded photograph; `inspection` is the optional owning inspection. */
  datatype Image = Image(
    id: nat, transformer: nat, inspection: Option<nat>, imageType: ImageType,
    envCondition: Option<EnvCondition>, uploader: string, filename: string,
    contentType: string, sizeBytes: int, storagePath: string, createdAt: Time)

  /** Stored per image: the colour of each box label as "r,g,b". */
  datatype DisplayMetadata = DisplayMetadata(boxColors: map<string, string>, timestamp: Option<Time>)

  /** The verbatim detector reply kept for an image, stamped when first persisted. */
  datatype OriginalResult = OriginalResult(anomalyJson: string, createdAt: Time)

  datatype RecordRow = RecordRow(
    transformer: nat,
    inspection: Option<nat>,
    maintenanceImage: nat,
    inspectionTimestamp: Option<Time>,
    inspectorName: Option<string>,
    status: Option<MaintenanceStatus>,
    electricalReadings: map<string, string>,
    recommendedAction: Option<string>,
    additionalRemarks: Option<string>,
    createdAt: Option<Time>,
    updatedAt: Option<Time>)

  /** The declared column length of recommendedAction and additionalRemarks. */
  const RemarkLength := 2000

  predicate FitsColumn(s: Option<string>)
  {
    s.None? || |s.value| <= RemarkLength
  }

  datatype AppUser = AppUser(name: string, occupation: Occupation, passwordHash: string, createdAt: Time, admin: bool)

  datatype Question = Question(text: string)

  /** A detector configuration: its many numeric parameters are kept as one map. */
  datatype Config = Config(configName: string, description: Option<string>, parameters: map<string, real>, isActive: bool)

  /** The declared length of a configuration name. */
  const ConfigNameLength := 100

  /** The identity a session token stands for. */
  datatype SessionUser = SessionUser(id: nat, name: string, occupation: Occupation, admin: bool)

  /** A maintenance record as the controller holds it: built once, then
      updated field by field through setters. */
  class MaintenanceRecord {
    var row: RecordRow

    function Data(): RecordRow
      reads this
    {
      row
    }

    /** The builder used on create. */
    constructor Build(r: RecordRow)
      ensures Data() == r
    {
      row := r;
    }

    method SetInspection(v: Option<nat>)
      modifies this
      ensures Data() == old(Data()).(inspection := v)
    {
      row := row.(inspection := v);
    }

    method SetInspectionTimestamp(v: Option<Time>)
      modifies this
      ensures Data() == old(Data()).(inspectionTimestamp := v)
    {
      row := row.(inspectionTimestamp := v);
    }

    method SetInspectorName(v: Option<string>)
      modifies this
      ensures Data() == old(Data()).(inspectorName := v)
    {
      row := row.(inspectorName := v);
    }

    method SetStatus(v: Option<MaintenanceStatus>)
      modifies this
      ensures Data() == old(Data()).(status := v)
    {
      row := row.(status := v);
    }

    method SetElectricalReadings(v: map<string, string>)
      modifies this
      ensures Data() == old(Data()).(electricalReadings := v)
    {
      row := row.(electricalReadings := v);
    }

    method SetRecommendedAction(v: Option<string>)
      modifies this
      ensures Data() == old(Data()).(recommendedAction := v)
    {
      row := row.(recommendedAction := v);
    }

    method SetAdditionalRemarks(v: Option<string>)
      modifies this
      ensures Data() == old(Data()).(additionalRemarks := v)
    {
      row := row.(additionalRemarks := v);
    }

    method SetUpdatedAt(v: Option<Time>)
      modifies this
      ensures Data() == old(Data()).(updatedAt := v)
    {
      row := row.(updatedAt := v);
    }
  }

  /** The vault entity: the image it belongs to, the reply text, and a
      creation time that the pre-persist hook assigns. */
  class OriginalAnomalyResult {
    var image: nat
    var anomalyJson: string
    var createdAt: Option<Time>

    constructor (image: nat, anomalyJson: string)
      ensures this.image == image && this.anomalyJson == anomalyJson && createdAt.None?
    {
      this.image := image;
      this.anomalyJson := anomalyJson;
      createdAt := None;
    }

    /** The pre-persist hook: stamps the creation time and nothing else. */
    method PrePersist(now: Time)
      modifies this`createdAt
      ensures createdAt == Some(now)
    {
      createdAt := Some(now);
    }
  }
}
