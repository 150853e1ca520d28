# Transformer inspection backend — a Dafny model

This project models the request logic of a Spring backend for the thermal
inspection of power transformers. Engineers register transformers and open
inspections. For each transformer they upload baseline images and maintenance
images. Each maintenance image is sent, with the transformer's newest
baseline, to an external anomaly detector. The detector's reply is turned
into fault regions, display metadata and a verbatim "original result" for
the image.

Engineers then correct the detector by hand:
- they add, patch and soft-delete annotations over those regions;
- they read a comparison report with an edit summary;
- they file one maintenance record per maintenance image;
- they can send the corrected regions to a classification server, which
  answers with a new detector configuration.

Around this sit users and sessions, admin seeding, a question catalogue and
the file-listing helpers.

The relational store is one class, `Database.Db`. It has one map per table,
keyed by the store-assigned id, and a single id counter. Its methods carry
the schema's constraints (foreign keys, unique and length-limited columns)
as refusals: an insert or delete the schema would reject returns `false`
and leaves the store unchanged. `Db.Snapshot()` gives the whole store as a
value (`Tables`), and each controller operation is a method proved against
a function on snapshots.

Entities the source mutates through setters (`FaultRegion`,
`MaintenanceRecord`, `OriginalAnomalyResult`) and the session table are
classes. DTOs, JSON trees and the pure helpers are datatypes and functions.
Outside inputs are parameters of the operations:
- the clock;
- random tokens;
- the password hasher;
- the detector and classification-server calls;
- the JSON and timestamp parsers;
- the directory listing.

Statuses written as numbers below (404, 400, 401, 403, 409, 500) are the
ones the raised exception stands for. The model's `Error` type names the
exception itself.

## Model

| member | source | states |
|---|---|---|
| FaultRegionModel.FaultRegion.constructor | src/main/java/com/example/transformer/model/FaultRegion.java:73-75 | a new entity has every attribute null |
| FaultRegionModel.FaultRegion.Load | src/main/java/com/example/transformer/model/FaultRegion.java:9-70 | an entity loaded from the store holds exactly the stored row |
| FaultRegionModel.FaultRegion.SetRegionId | src/main/java/com/example/transformer/model/FaultRegion.java:89-91 | writes the detector's region number and no other attribute |
| FaultRegionModel.FaultRegion.SetType | src/main/java/com/example/transformer/model/FaultRegion.java:97-99 | writes the fault type and no other attribute |
| FaultRegionModel.FaultRegion.SetDominantColor | src/main/java/com/example/transformer/model/FaultRegion.java:105-107 | writes the dominant colour and no other attribute |
| FaultRegionModel.FaultRegion.SetColorRgb | src/main/java/com/example/transformer/model/FaultRegion.java:113-115 | writes the colour list as given (order kept) and no other attribute |
| FaultRegionModel.FaultRegion.SetBoundingBox | src/main/java/com/example/transformer/model/FaultRegion.java:121-123 | writes the whole bounding box and no other attribute |
| FaultRegionModel.FaultRegion.SetCentroid | src/main/java/com/example/transformer/model/FaultRegion.java:129-131 | writes the whole centroid and no other attribute |
| FaultRegionModel.FaultRegion.SetAspectRatio | src/main/java/com/example/transformer/model/FaultRegion.java:137-139 | writes the aspect ratio and no other attribute |
| FaultRegionModel.FaultRegion.SetElongated | src/main/java/com/example/transformer/model/FaultRegion.java:145-147 | writes the three-valued elongated flag and no other attribute |
| FaultRegionModel.FaultRegion.SetConnectedToWire | src/main/java/com/example/transformer/model/FaultRegion.java:153-155 | writes the three-valued wire flag and no other attribute |
| FaultRegionModel.FaultRegion.SetTag | src/main/java/com/example/transformer/model/FaultRegion.java:161-163 | writes the tag and no other attribute |
| FaultRegionModel.FaultRegion.SetConfidence | src/main/java/com/example/transformer/model/FaultRegion.java:169-171 | writes the confidence and no other attribute |
| FaultRegionModel.FaultRegion.SetImage | src/main/java/com/example/transformer/model/FaultRegion.java:177-179 | writes the image reference and no other attribute |
| FaultRegionModel.FaultRegion.SetComment | src/main/java/com/example/transformer/model/FaultRegion.java:185-187 | writes the comment and no other attribute |
| FaultRegionModel.FaultRegion.SetIsManual | src/main/java/com/example/transformer/model/FaultRegion.java:193-195 | writes the three-valued manual flag and no other attribute |
| FaultRegionModel.FaultRegion.SetCreatedAt | src/main/java/com/example/transformer/model/FaultRegion.java:201-203 | writes the creation time and no other attribute |
| FaultRegionModel.FaultRegion.SetCreatedBy | src/main/java/com/example/transformer/model/FaultRegion.java:209-211 | writes the creator and no other attribute |
| FaultRegionModel.FaultRegion.SetLastModifiedAt | src/main/java/com/example/transformer/model/FaultRegion.java:217-219 | writes the modification time and no other attribute |
| FaultRegionModel.FaultRegion.SetLastModifiedBy | src/main/java/com/example/transformer/model/FaultRegion.java:225-227 | writes the modifier and no other attribute |
| FaultRegionModel.FaultRegion.SetIsDeleted | src/main/java/com/example/transformer/model/FaultRegion.java:233-235 | writes the three-valued deleted flag and no other attribute |
| FaultRegionModel.FaultRegion.SetDeletedAt | src/main/java/com/example/transformer/model/FaultRegion.java:241-243 | writes the deletion time and no other attribute |
| Entities.MaintenanceRecord.Build | src/main/java/com/example/transformer/controller/MaintenanceRecordController.java:224-239 | the built record holds exactly the given column values |
| Entities.MaintenanceRecord.SetInspection | src/main/java/com/example/transformer/model/MaintenanceRecord.java:29-31 | writes the optional inspection reference and nothing else |
| Entities.MaintenanceRecord.SetInspectionTimestamp | src/main/java/com/example/transformer/model/MaintenanceRecord.java:38-39 | writes the inspection time and nothing else |
| Entities.MaintenanceRecord.SetInspectorName | src/main/java/com/example/transformer/model/MaintenanceRecord.java:41-42 | writes the inspector name and nothing else |
| Entities.MaintenanceRecord.SetStatus | src/main/java/com/example/transformer/model/MaintenanceRecord.java:44-45 | writes the status and nothing else |
| Entities.MaintenanceRecord.SetElectricalReadings | src/main/java/com/example/transformer/model/MaintenanceRecord.java:47-54 | replaces the reading map and nothing else |
| Entities.MaintenanceRecord.SetRecommendedAction | src/main/java/com/example/transformer/model/MaintenanceRecord.java:57-58 | writes the recommended action and nothing else |
| Entities.MaintenanceRecord.SetAdditionalRemarks | src/main/java/com/example/transformer/model/MaintenanceRecord.java:60-61 | writes the remarks and nothing else |
| Entities.MaintenanceRecord.SetUpdatedAt | src/main/java/com/example/transformer/model/MaintenanceRecord.java:64 | writes the update time and nothing else |
| Entities.OriginalAnomalyResult.constructor | src/main/java/com/example/transformer/model/OriginalAnomalyResult.java:20-28 | a vault row references its image and holds the reply text verbatim, with no creation time yet |
| Entities.OriginalAnomalyResult.PrePersist | src/main/java/com/example/transformer/model/OriginalAnomalyResult.java:30-33 | the pre-persist hook stamps the creation time and changes nothing else |
| Database.Persisted | src/main/java/com/example/transformer/model/FaultRegion.java:18-38 | a region reads back with an all-null embedded box or centroid as null and the colour collection as a list (empty when none was stored); every other attribute reads back as written |
| Database.Db.constructor | src/main/java/com/example/transformer/repository/FaultRegionRepository.java:10 | the store starts with every table empty and satisfies its constraints |
| Database.Db.AllocateId | src/main/java/com/example/transformer/model/FaultRegion.java:10-12 | identities are drawn from one increasing counter and never reused |
| Database.Db.InsertTransformer | src/main/java/com/example/transformer/controller/TransformerController.java:77-90 | `save` of a new transformer stores it under a fresh key and keeps every constraint |
| Database.Db.SaveTransformer | src/main/java/com/example/transformer/controller/TransformerController.java:99-106 | `save` of an existing transformer replaces its row only |
| Database.Db.DeleteTransformer | src/main/java/com/example/transformer/controller/TransformerController.java:108-113 | `deleteById` succeeds exactly when no inspection, image or record references the transformer (the foreign keys), and changes no other table |
| Database.Db.InsertInspection | src/main/java/com/example/transformer/controller/InspectionController.java:54-70 | `save` of a new inspection under a fresh key, its transformer existing |
| Database.Db.DeleteInspection | src/main/java/com/example/transformer/controller/InspectionController.java:110 | `delete` succeeds exactly when no image or record still references the inspection, and changes no other table |
| Database.Db.InsertImage | src/main/java/com/example/transformer/model/TransformerImage.java:9-34 | `save` of a new image: the stored image carries its fresh key |
| Database.Db.DeleteImage | src/main/java/com/example/transformer/controller/InspectionController.java:106 | `delete` succeeds exactly when no region, metadata, vault row or record references the image, and changes no other table |
| Database.Db.InsertRegion | src/main/java/com/example/transformer/service/ErrorAnnotationService.java:77 | `save` of a new region stores its read-back form under a fresh key carried in `dbId` |
| Database.Db.UpdateRegion | src/main/java/com/example/transformer/service/ErrorAnnotationService.java:192 | `save` of a loaded region replaces the row of its own key only |
| Database.Db.DeleteRegionsOfImage | src/main/java/com/example/transformer/repository/FaultRegionRepository.java:19-21 | `deleteByImageId` removes exactly the regions of that image |
| Database.Db.InsertMetadata | src/main/java/com/example/transformer/repository/DisplayMetadataRepository.java:7-8 | stores the display metadata of an image that has none |
| Database.Db.DeleteMetadataOfImage | src/main/java/com/example/transformer/controller/InspectionController.java:103 | `deleteByImageId` removes the image's display metadata only |
| Database.Db.InsertOriginal | src/main/java/com/example/transformer/model/OriginalAnomalyResult.java:20-33 | the unique image column admits one vault row per image; a stored row is stamped by the pre-persist hook |
| Database.Db.DeleteOriginalOfImage | src/main/java/com/example/transformer/controller/InspectionController.java:101 | `deleteByImageId` removes the image's vault row only |
| Database.Db.InsertRecord | src/main/java/com/example/transformer/model/MaintenanceRecord.java:34-61 | a record is stored exactly when its image has no record yet and its texts fit their 2000-character columns |
| Database.Db.UpdateRecord | src/main/java/com/example/transformer/model/MaintenanceRecord.java:34-61 | replaces a record under the same column constraints |
| Database.Db.DeleteRecordsOfInspection | src/main/java/com/example/transformer/controller/InspectionController.java:96 | `deleteByInspectionId` removes exactly the records whose inspection is that one |
| Database.Db.DeleteRecordsOfImage | src/main/java/com/example/transformer/model/MaintenanceRecord.java:34-36 | removes exactly the records of one image |
| Database.Db.InsertUser | src/main/java/com/example/transformer/model/AppUser.java:22-23 | the unique name column refuses a second user of the same name; otherwise a fresh key |
| Database.Db.InsertQuestion | src/main/java/com/example/transformer/service/QuestionServiceImpl.java:17-22 | stores a new question under a fresh key |
| Database.Db.SaveQuestion | src/main/java/com/example/transformer/service/QuestionServiceImpl.java:34-39 | replaces one existing question |
| Database.Db.DeleteQuestion | src/main/java/com/example/transformer/service/QuestionServiceImpl.java:41-45 | removes one question |
| Database.Db.InsertConfig | src/main/java/com/example/transformer/model/AnomalyDetectionConfig.java:14-15 | a configuration is stored exactly when its name is unique and at most 100 characters |
| Database.Db.SaveConfig | src/main/java/com/example/transformer/model/AnomalyDetectionConfig.java:14-15 | replaces a configuration under the same name constraints |
| Database.Db.RestoreConfigs | src/main/java/com/example/transformer/service/ClassificationTrainingService.java:189-330 | a rolled-back transaction returns the configuration table to its earlier state and touches nothing else |
| ErrorAnnotationDto.ExternalId | src/main/java/com/example/transformer/dto/ErrorAnnotationDTO.java:81-82 | a region's external id is the name-based UUID of `"fault-region-" + dbId` |
| ErrorAnnotationDto.ExternalIdInjective | src/main/java/com/example/transformer/service/ErrorAnnotationService.java:80 | two store keys share an external id only if they are equal (the decimal rendering is injective) |
| ErrorAnnotationDto.TagStatus | src/main/java/com/example/transformer/dto/ErrorAnnotationDTO.java:122-131 | a recognised tag names one of FAULTY, POTENTIAL, NORMAL |
| ErrorAnnotationDto.ConfidenceStatus | src/main/java/com/example/transformer/dto/ErrorAnnotationDTO.java:134-142 | a confidence always maps to one of the three statuses |
| ErrorAnnotationDto.DetermineStatus | src/main/java/com/example/transformer/dto/ErrorAnnotationDTO.java:121-145 | the result is always one of the three statuses; a recognised tag decides; with neither tag nor confidence it is POTENTIAL |
| ErrorAnnotationDto.ConfidenceMonotone | src/main/java/com/example/transformer/dto/ErrorAnnotationDTO.java:134-142 | without a recognised tag, a higher confidence never gives a milder status |
| ErrorAnnotationDto.FaultyTagWins | src/main/java/com/example/transformer/dto/ErrorAnnotationDTO.java:123-125 | a tag whose upper-cased form contains FAULTY gives FAULTY, whatever the confidence |
| ErrorAnnotationDto.FirstTagGroupWins | src/main/java/com/example/transformer/dto/ErrorAnnotationDTO.java:124-127 | the groups are tried in order: "Potentially Faulty" gives FAULTY |
| ErrorAnnotationDto.LowerCaseTagRecognised | src/main/java/com/example/transformer/dto/ErrorAnnotationDTO.java:123-124 | the tag test ignores case: "critical" gives FAULTY |
| ErrorAnnotationDto.ExtentOf | src/main/java/com/example/transformer/dto/ErrorAnnotationDTO.java:58-72 | with a box, the centre is its corner plus half its size and the size is the box's, so the centroid plays no part; width and height come from the box only; with neither box nor centroid nothing is reported |
| ErrorAnnotationDto.FromFaultRegion | src/main/java/com/example/transformer/dto/ErrorAnnotationDTO.java:51-119 | the view: external id of the store key (so it depends on nothing else), derived centre/size, status, label or "Unknown", isPoint iff no size; whatever the row holds it reports not manual, not deleted, no comment, "ai-system" and the image's creation time |
| ErrorAnnotationService.Corner | src/main/java/com/example/transformer/service/ErrorAnnotationService.java:41 | the corner is the centre minus half the size, rounded to the nearest integer (ties up) |
| ErrorAnnotationService.CreatedBox | src/main/java/com/example/transformer/service/ErrorAnnotationService.java:39-55 | x only from cx and w, y only from cy and h, width/height the truncated sizes, area the rounded product only when both sizes are given; missing inputs leave null |
| ErrorAnnotationService.TruncateOpt | src/main/java/com/example/transformer/service/ErrorAnnotationService.java:59-60 | a given centre is truncated toward zero; a missing one stays null |
| ErrorAnnotationService.CreatedRow | src/main/java/com/example/transformer/service/ErrorAnnotationService.java:36-74 | the new row: box and truncated centroid from the request, type from label, tag from status, manual true, creation time now and creator "unknown" unless supplied, nothing else set |
| ErrorAnnotationService.CreatedResponse | src/main/java/com/example/transformer/service/ErrorAnnotationService.java:79-106 | the create response echoes the request's centre and size, reports the saved row's fields and the id of the new key, isPoint iff no size |
| ErrorAnnotationService.PatchBox | src/main/java/com/example/transformer/service/ErrorAnnotationService.java:137-148 | x and width move together from cx and w, y and height from cy and h, the area follows w and h alone |
| ErrorAnnotationService.PatchCentroid | src/main/java/com/example/transformer/service/ErrorAnnotationService.java:151-162 | each centroid coordinate changes only when its centre is given |
| ErrorAnnotationService.PatchedGeometry | src/main/java/com/example/transformer/service/ErrorAnnotationService.java:130-163 | no geometry input leaves the row unchanged; otherwise box and centroid (created when missing) are patched and nothing else |
| ErrorAnnotationService.Patch | src/main/java/com/example/transformer/service/ErrorAnnotationService.java:166-180 | a given value replaces the field, a null one keeps it |
| ErrorAnnotationService.UpdatedRow | src/main/java/com/example/transformer/service/ErrorAnnotationService.java:130-189 | an update never touches identity, region number, dominant colour, creation or deletion state; patches the given fields; always stamps the modification and marks the region manual |
| ErrorAnnotationService.SoftDeletedRow | src/main/java/com/example/transformer/service/ErrorAnnotationService.java:225-226 | a soft delete sets the deleted flag and time and nothing else |
| ErrorAnnotationService.ImageRegions | src/main/java/com/example/transformer/repository/FaultRegionRepository.java:16 | `findByImageId` returns only regions of that image |
| ErrorAnnotationService.FindByExternalId | src/main/java/com/example/transformer/service/ErrorAnnotationService.java:120-128 | the scan returns a listed region whose id matches, and fails only when none matches |
| ErrorAnnotationService.ListedIsStored | src/main/java/com/example/transformer/service/ErrorAnnotationService.java:118 | every listed region is the stored row of its own key |
| ErrorAnnotationService.ResolveByKey | src/main/java/com/example/transformer/service/ErrorAnnotationService.java:118-128 | resolution succeeds iff the key the id names holds a region of that image, and then returns exactly that region |
| ErrorAnnotationService.CreateErrorAnnotation | src/main/java/com/example/transformer/service/ErrorAnnotationService.java:30-107 | NotFound and nothing saved for an unknown image; otherwise exactly one new region under a fresh key and its response |
| ErrorAnnotationService.UpdateErrorAnnotation | src/main/java/com/example/transformer/service/ErrorAnnotationService.java:110-196 | NotFound and no change for an unknown image or id; otherwise the resolved region, deleted or not, is replaced by its patched row and viewed |
| ErrorAnnotationService.SoftDeleteErrorAnnotation | src/main/java/com/example/transformer/service/ErrorAnnotationService.java:199-233 | NotFound as for update; IllegalState and no change for a region already flagged deleted (null counts as live); otherwise the row is kept, flagged and stamped |
| ErrorAnnotationService.PatchGeometry | src/main/java/com/example/transformer/service/ErrorAnnotationService.java:131-163 | the setter sequence on the loaded entity yields the patched geometry |
| ErrorAnnotationService.PatchFields | src/main/java/com/example/transformer/service/ErrorAnnotationService.java:165-189 | the setter sequence on the loaded entity yields the patched fields, stamps and manual mark |
| ErrorAnnotationService.CreatedCentreReported | src/main/java/com/example/transformer/dto/ErrorAnnotationDTO.java:60-62 | for an integral centre and an even integral width, the centre viewed after create equals the one sent |
| ErrorAnnotationService.CreatedCentreOddWidth | src/main/java/com/example/transformer/service/ErrorAnnotationService.java:41 | for an odd integral width the viewed centre is half a unit off the one sent |
| ErrorAnnotationService.CreatedPointViewedAtCentroid | src/main/java/com/example/transformer/dto/ErrorAnnotationDTO.java:68-72 | a point created without size is stored without box and viewed at its truncated centre with no size |
| ErrorAnnotationService.DeleteResponseReportsLive | src/main/java/com/example/transformer/dto/ErrorAnnotationDTO.java:107-117 | the delete response reports the region as not deleted and without deletion time |
| ImageErrorAnnotationController.ByRegionIdCorrect | src/main/java/com/example/transformer/repository/FaultRegionRepository.java:13 | `findByImageIdOrderByRegionIdAsc` returns a permutation of the image's regions sorted by region id |
| ImageErrorAnnotationController.ListedRows | src/main/java/com/example/transformer/controller/ImageErrorAnnotationController.java:59 | with includeDeleted everything is kept; otherwise exactly the rows not flagged deleted (null kept) |
| ImageErrorAnnotationController.ListedKeepsOrder | src/main/java/com/example/transformer/controller/ImageErrorAnnotationController.java:58-61 | the filtered list is a subsequence of the ordered list, so the region-id order survives |
| ImageErrorAnnotationController.Views | src/main/java/com/example/transformer/controller/ImageErrorAnnotationController.java:60 | one view per row, position for position |
| ImageErrorAnnotationController.GetImageErrors | src/main/java/com/example/transformer/controller/ImageErrorAnnotationController.java:38-67 | NotFound iff the image is absent, BadRequest iff it is not MAINTENANCE; otherwise the filtered ordered views, and an empty list when the image has no regions |
| ImageErrorAnnotationController.StoredIsListed | src/main/java/com/example/transformer/controller/ImageErrorAnnotationController.java:50-61 | every stored region of the image that the filter keeps appears in the listing |
| ImageErrorAnnotationController.ListedIdDesignatesKey | src/main/java/com/example/transformer/controller/ImageErrorAnnotationController.java:58-61 | a listed annotation with the id of key k is the view of the row stored under k |
| ImageErrorAnnotationController.CreatedIsListed | src/main/java/com/example/transformer/controller/ImageErrorAnnotationController.java:38-85 | after a create, the listing holds the new annotation under the returned id and no other annotation has that id |
| ImageErrorAnnotationController.CreateImageError | src/main/java/com/example/transformer/controller/ImageErrorAnnotationController.java:70-85 | a body without a centre, or naming another image than the path, is refused with 400 before the service and nothing changes; otherwise the service's create |
| ImageErrorAnnotationController.UpdateImageError | src/main/java/com/example/transformer/controller/ImageErrorAnnotationController.java:88-104 | a body id differing from the path id is refused with 400 and nothing changes; otherwise the service's update, with no image-type check |
| ImageErrorAnnotationController.DeleteImageError | src/main/java/com/example/transformer/controller/ImageErrorAnnotationController.java:107-117 | 404 exactly when the image is unknown or `errorId` names none of its regions; IllegalState when the named region is already deleted; otherwise exactly the named region is flagged deleted and stamped and its view returned; a failure changes nothing |
| FaultRegionDto.FromEntity | src/main/java/com/example/transformer/dto/FaultRegionDTO.java:21-49 | the box view is present iff the entity has a box, with its five coordinates copied; likewise the centroid; every other exposed attribute copied, created_by from createdBy |
| FaultRegionDto.ViewsEqualIffSameExposed | src/main/java/com/example/transformer/dto/FaultRegionDTO.java:6-20 | two rows have equal views exactly when they agree on every exposed attribute |
| FaultRegionDto.AuditFieldsHidden | src/main/java/com/example/transformer/dto/FaultRegionDTO.java:6-20 | manual and deleted flags, deletion time, comment, modification stamps, creation time and image do not affect the view |
| FaultRegionDto.FromEntities | src/main/java/com/example/transformer/controller/ImageAnomalyController.java:134-136 | one view per row, in the same order |
| ImageAnomalyController.GetFaultRegions | src/main/java/com/example/transformer/controller/ImageAnomalyController.java:42-48 | NotFound iff the image is absent (any type accepted); otherwise the views of its regions in region-id order |
| ImageAnomalyController.GetAnomalyResults | src/main/java/com/example/transformer/controller/ImageAnomalyController.java:62-88 | NotFound for a missing image, BadRequest iff not MAINTENANCE, NotFound iff there are neither regions nor metadata; display_metadata present iff the image has metadata |
| ImageAnomalyController.Summarise | src/main/java/com/example/transformer/controller/ImageAnomalyController.java:142-156 | totalRegions is the number of regions and every other count is at most that |
| ImageAnomalyController.Info | src/main/java/com/example/transformer/controller/ImageAnomalyController.java:106-114 | the inspection entries are present iff the image has an inspection |
| ImageAnomalyController.Original | src/main/java/com/example/transformer/controller/ImageAnomalyController.java:117-130 | originalResults is present iff a vault row exists and its text parses, and then holds its receipt time and the parsed reply |
| ImageAnomalyController.AnomalyComparison | src/main/java/com/example/transformer/controller/ImageAnomalyController.java:91-167 | NotFound iff the image is absent, BadRequest iff not MAINTENANCE; otherwise the original reply, all current region views, the metadata and the edit summary; a function of the store, so nothing is written |
| ImageAnomalyController.ComparisonShowsDeleted | src/main/java/com/example/transformer/controller/ImageAnomalyController.java:101 | every stored region of the image, soft-deleted or not, appears among the current regions |
| ImageAnomalyController.SummaryOrderFree | src/main/java/com/example/transformer/controller/ImageAnomalyController.java:142-156 | the counts do not depend on the order the regions are listed in |
| ImageAnomalyController.SummaryReplace | src/main/java/com/example/transformer/controller/ImageAnomalyController.java:142-156 | replacing one region of the image keeps the total and moves each count by what the old and new row say |
| ImageAnomalyController.SoftDeleteSummary | src/main/java/com/example/transformer/service/ErrorAnnotationService.java:225-229 | a soft delete adds exactly one to the deleted count and changes no other count |
| ImageAnomalyController.UpdateSummary | src/main/java/com/example/transformer/service/ErrorAnnotationService.java:183-192 | an update makes the region count as manually added and modified; total and deleted stay |
| DetectorIngestion.NonNullInts | src/main/java/com/example/transformer/controller/TransformerImageController.java:150-156 | the collected colour list is never longer than the array it came from |
| DetectorIngestion.NonNullIntsOfInts | src/main/java/com/example/transformer/controller/TransformerImageController.java:150-157 | a colour list written as a JSON array of integers reads back unchanged, in order |
| DetectorIngestion.ReadColorRgb | src/main/java/com/example/transformer/controller/TransformerImageController.java:150-157 | the loop collects the non-null elements of "color_rgb" in order, and nothing when the key is absent or null |
| DetectorIngestion.Normalise | src/main/java/com/example/transformer/controller/TransformerImageController.java:141-229 | the region of a detector entry: attached to the image, each attribute null exactly when its key is absent or null, the box present iff either spelling is, and no annotation trail |
| DetectorIngestion.ReadRegion | src/main/java/com/example/transformer/controller/TransformerImageController.java:141-229 | the setter sequence on a new entity yields the normalised region |
| DetectorIngestion.CamelSpellingWins | src/main/java/com/example/transformer/controller/TransformerImageController.java:159-177 | when "boundingBox" is present an added "bounding_box" changes nothing in the stored region |
| DetectorIngestion.SnakeAreaPrecedence | src/main/java/com/example/transformer/controller/TransformerImageController.java:171-195 | under "bounding_box" "area_px" wins over "areaPx"; under "boundingBox" only "areaPx" is read |
| DetectorIngestion.RgbTextSplits | src/main/java/com/example/transformer/controller/TransformerImageController.java:246 | the stored "r,g,b" text splits back into the three numbers it was built from |
| DetectorIngestion.RgbTextInjective | src/main/java/com/example/transformer/controller/TransformerImageController.java:246 | two colour entries store the same text only when their first three numbers agree |
| DetectorIngestion.BoxColorsKept | src/main/java/com/example/transformer/controller/TransformerImageController.java:241-249 | a label is kept iff its value is an array of at least three elements, and then maps to the text of the first three |
| DetectorIngestion.ReadBoxColors | src/main/java/com/example/transformer/controller/TransformerImageController.java:238-251 | the loop over the field names builds exactly the box-colour map |
| DetectorIngestion.MetadataOf | src/main/java/com/example/transformer/controller/TransformerImageController.java:234-262 | metadata exists iff "display_metadata" is present; without "timestamp" the time is null; without "box_colors" the map is empty |
| DetectorIngestion.ReadMetadata | src/main/java/com/example/transformer/controller/TransformerImageController.java:234-259 | the imperative reading yields exactly that metadata; a refused timestamp leaves it null without aborting |
| DetectorIngestion.IngestedRegionsKeys | src/main/java/com/example/transformer/controller/TransformerImageController.java:140-231 | entry i is stored under key base+i and no other key is used |
| DetectorIngestion.IngestedRowsUnedited | src/main/java/com/example/transformer/controller/TransformerImageController.java:140-231 | every stored row belongs to the image, carries its own key, and is neither manual, edited nor deleted |
| DetectorIngestion.SaveRegion | src/main/java/com/example/transformer/controller/TransformerImageController.java:141-230 | one entry is normalised and stored under the next key |
| DetectorIngestion.SaveRegions | src/main/java/com/example/transformer/controller/TransformerImageController.java:137-232 | the loop adds one row per entry, in order, under consecutive keys, and touches no other table |
| DetectorIngestion.SaveMetadata | src/main/java/com/example/transformer/controller/TransformerImageController.java:234-262 | the metadata is stored exactly when the reply carries it, and nothing else changes |
| DetectorIngestion.SaveOriginal | src/main/java/com/example/transformer/controller/TransformerImageController.java:266-270 | the reply text is stored verbatim as the image's original result, stamped now, and nothing else changes |
| DetectorIngestion.SaveReply | src/main/java/com/example/transformer/controller/TransformerImageController.java:137-270 | regions, then metadata, then (on this path) the original result: the store afterwards is the ingested store |
| DetectorIngestion.Ingest | src/main/java/com/example/transformer/controller/TransformerImageController.java:130-275 | a failed call or an unparseable reply changes nothing and returns nothing; otherwise the ingested store and the parsed reply |
| AnomalyDetection.DetectionConfig | src/main/java/com/example/transformer/service/AnomalyDetectionService.java:75-84 | succeeds iff the lookup of the active row does; a failure changes nothing; the configuration sent is active; the store changes at most by the default saved under a fresh key, and only when no row was active |
| AnomalyDetection.DetectionConfigActive | src/main/java/com/example/transformer/service/AnomalyDetectionService.java:75-84 | after a successful lookup exactly one configuration is active, and it is the one sent to the detector |
| AnomalyDetection.DetectionConfigStable | src/main/java/com/example/transformer/service/AnomalyDetectionService.java:75-84 | a second lookup changes nothing and sends the same configuration: the default is saved at most once |
| AnomalyDetection.GetActiveConfig | src/main/java/com/example/transformer/service/AnomalyDetectionService.java:75-84 | the store afterwards and the configuration returned are those of the lookup |
| DetectorIngestion.AfterDetectionFrame | src/main/java/com/example/transformer/controller/TransformerController.java:191-333 | ingesting the reply touches only regions, the id counter, metadata and originals; the path that keeps the original differs from the one that does not only in the originals (the configuration lookup before the call is `AnomalyDetection.DetectionConfig`) |
| ImageUpload.UploadInspection | src/main/java/com/example/transformer/controller/TransformerImageController.java:65-91 | the upload is accepted iff the transformer exists, a baseline has a weather reading and a maintenance image names an existing inspection of the same transformer; 404 exactly for a missing transformer or inspection, 400 otherwise; the linked inspection is the named one for a maintenance image and none for a baseline |
| ImageUpload.NewImage | src/main/java/com/example/transformer/controller/TransformerImageController.java:96-106 | a weather reading is kept only on a baseline; a sent file name and content type are kept, the defaults stand in only for missing ones; the stored creation time is the one the database gives the column, not the entity's (model/TransformerImage.java:32-33) |
| ImageUpload.ViewOf | src/main/java/com/example/transformer/controller/TransformerImageController.java:110-119 | the response entry carries the saved id and the linked inspection's id |
| ImageUpload.SortedMembers | src/main/java/com/example/transformer/repository/TransformerImageRepository.java:9-10 | the newest-first query returns exactly the rows it selects, ordered by creation time |
| ImageUpload.BaselinesMembers | src/main/java/com/example/transformer/repository/TransformerImageRepository.java:10 | the baseline query returns exactly the stored baselines of the transformer |
| ImageUpload.NewestBaseline | src/main/java/com/example/transformer/controller/TransformerImageController.java:123-128 | the detector's partner image is a stored baseline of the transformer and no other baseline of it is newer |
| ImageUpload.NoBaseline | src/main/java/com/example/transformer/controller/TransformerImageController.java:123-127 | detection is skipped exactly when the transformer has no stored baseline |
| ImageUpload.SaveImage | src/main/java/com/example/transformer/controller/TransformerImageController.java:108 | the row is stored under the next id and nothing but the image table and the id counter changes |
| ImageUpload.Detect | src/main/java/com/example/transformer/controller/TransformerImageController.java:130-275 | the detection step on the store: the configuration lookup, then the detector call with that configuration and the ingestion of its reply; a failed lookup or call ingests nothing but keeps a saved default |
| ImageUpload.DetectedFrame | src/main/java/com/example/transformer/service/AnomalyDetectionService.java:38-85 | the detection step changes only the configurations, the regions, the id counter and the display metadata; the images and every other table stay as they were |
| ImageUpload.DetectedConfigs | src/main/java/com/example/transformer/service/AnomalyDetectionService.java:75-84 | the detection step changes the configurations at most by saving the default under the next key, and only when no configuration was active |
| ImageUpload.DetectedVault | src/main/java/com/example/transformer/controller/TransformerImageController.java:264-270 | keeping the detector's reply changes only the original results and not the result returned |
| ImageUpload.UploadConfigs | src/main/java/com/example/transformer/service/AnomalyDetectionService.java:75-84 | an upload adds at most one configuration: the active default, under the key after the image's, only for a maintenance upload and only when no configuration was active |
| ImageUpload.Upload | src/main/java/com/example/transformer/controller/TransformerImageController.java:58-279 | the store afterwards and the response are those of the upload: checks, image row, then for a maintenance image the configuration lookup (which may save the default) and detection against the newest baseline |
| ImageUpload.RefusedUploadChangesNothing | src/main/java/com/example/transformer/controller/TransformerImageController.java:65-91 | a refused upload leaves the store as it was and answers 404 or 400 |
| ImageUpload.AcceptedUploadKeepsImage | src/main/java/com/example/transformer/controller/TransformerImageController.java:93-277 | an accepted upload always stores and returns the image, whatever the detector does, with the file-name and content-type defaults and the inspection link of a maintenance image only; the row holds the database's creation time, the response the entity's clock reading |
| ImageUpload.BaselineUploadSkipsDetection | src/main/java/com/example/transformer/controller/TransformerImageController.java:121-122 | a baseline upload adds only its image row, keeps the weather reading and returns no detector result |
| ImageUpload.UploadsDifferOnlyInVault | src/main/java/com/example/transformer/controller/TransformerImageController.java:264-270 | this upload and the one of the transformer controller (TransformerController.java:121-337) give the same response and the same store except for the kept original results |
| ImageUpload.DetectedRegionsUnedited | src/main/java/com/example/transformer/controller/TransformerImageController.java:140-231 | every region the upload adds belongs to the new image, carries its own id and counts as neither manual, deleted nor modified |
| ImageUpload.DetectedRowsUnedited | src/main/java/com/example/transformer/controller/TransformerImageController.java:140-231 | every region row the detection step adds belongs to the analysed image, carries its own key as id and has no manual, deleted or modified mark |
| ImageUpload.Views | src/main/java/com/example/transformer/controller/TransformerImageController.java:309-318 | one response entry per image, in the same order |
| ImageUpload.ListImages | src/main/java/com/example/transformer/controller/TransformerImageController.java:282-321 | 404 for an unknown transformer; otherwise the loop returns the views of the transformer's images, newest first, that pass the type and inspection filters |
| ImageUpload.PassesFilters | src/main/java/com/example/transformer/controller/TransformerImageController.java:297-307 | the loop body keeps an image exactly when its type matches a given type filter and its inspection is the one a given inspection filter names (an image without inspection never matches) |
| ImageUpload.ListedImagesCorrect | src/main/java/com/example/transformer/controller/TransformerImageController.java:290-307 | the listing holds exactly the transformer's stored images of the requested type and inspection (none without an inspection when one is requested), newest first |
| InspectionController.NewInspection | src/main/java/com/example/transformer/controller/InspectionController.java:60-67 | the new inspection belongs to the transformer of the path, is stamped now, copies the request's fields and is open unless the request gives a status |
| InspectionController.AddInspection | src/main/java/com/example/transformer/controller/InspectionController.java:54-71 | 404 and no change for an unknown transformer; otherwise exactly one inspection is added under a fresh id and returned |
| InspectionController.ImagesOf | src/main/java/com/example/transformer/controller/InspectionController.java:98 | only images of the inspection are listed, in ascending id order |
| InspectionController.ImagesOfComplete | src/main/java/com/example/transformer/controller/InspectionController.java:98 | every image of the inspection is listed |
| InspectionController.ImagesOfGone | src/main/java/com/example/transformer/controller/InspectionController.java:98 | the images the loop visits are exactly those of the inspection |
| InspectionController.UnlinkedReferenced | src/main/java/com/example/transformer/controller/InspectionController.java:101-105 | once an image's original result, regions and metadata are gone, only a maintenance record can still hold it |
| InspectionController.ClearImagesSucceeds | src/main/java/com/example/transformer/controller/InspectionController.java:99-106 | the loop gets through its images exactly when none of them is the maintenance image of a remaining record |
| InspectionController.ClearImagesPurges | src/main/java/com/example/transformer/controller/InspectionController.java:99-106 | a loop that gets through removes exactly the listed images and the rows hanging off them |
| InspectionController.PurgedStep | src/main/java/com/example/transformer/controller/InspectionController.java:99-106 | one pass of the loop followed by the rest is the removal for the whole list |
| InspectionController.PurgeMatches | src/main/java/com/example/transformer/controller/InspectionController.java:96-108 | the records step, the loop and the final delete together remove exactly what the direct description names |
| InspectionController.PurgeUnreferenced | src/main/java/com/example/transformer/controller/InspectionController.java:96-108 | after the cascade nothing in the store refers to the inspection |
| InspectionController.CleanupBlocked | src/main/java/com/example/transformer/controller/InspectionController.java:96-106 | as written, a record of another inspection (or of none) holding one of the inspection's images makes the delete fail with a 500 |
| InspectionController.CleanupPurges | src/main/java/com/example/transformer/controller/InspectionController.java:96-108 | otherwise the deletes remove exactly the inspection, its images, their rows and its records |
| InspectionController.CascadeOutcome | src/main/java/com/example/transformer/controller/InspectionController.java:73-111 | a delete that passes its checks succeeds exactly when it is not blocked, and then leaves exactly the purged store; otherwise it answers 500 |
| InspectionController.ClearImage | src/main/java/com/example/transformer/controller/InspectionController.java:100-105 | one pass on the store: the original result, regions and metadata of the image go, then the image unless something still holds it; no other image is removed |
| InspectionController.Unlink | src/main/java/com/example/transformer/controller/InspectionController.java:101-103 | the original result, the fault regions and the display metadata of the image are deleted (with `dropRecords`, also the maintenance record that uses it), and nothing else changes |
| InspectionController.ClearAll | src/main/java/com/example/transformer/controller/InspectionController.java:99-106 | the loop over the images stops at the first refused delete, leaving what it already did |
| InspectionController.CleanupAll | src/main/java/com/example/transformer/controller/InspectionController.java:96-108 | records of the inspection, then the loop, then the inspection itself, as the cascade describes |
| InspectionController.Cascade | src/main/java/com/example/transformer/controller/InspectionController.java:73-111 | 404 for an unknown transformer or inspection, 400 for an inspection of another transformer, otherwise the clean-up |
| InspectionController.DeleteInspection | src/main/java/com/example/transformer/controller/InspectionController.java:73-111 | the endpoint as written: the store afterwards and the answer are those of the cascade that keeps records filed under other inspections |
| InspectionController.DeleteInspectionFixed | src/main/java/com/example/transformer/controller/InspectionController.java:73-111 | the corrected endpoint: records that use one of the inspection's images are dropped before the image |
| InspectionController.AsWrittenSucceedsIff | src/main/java/com/example/transformer/controller/InspectionController.java:96-108 | as written, a delete that passes its checks succeeds iff no record of another inspection holds one of its images |
| InspectionController.FixedCascadeCleans | src/main/java/com/example/transformer/controller/InspectionController.java:96-108 | corrected, a delete that passes its checks always succeeds and removes exactly the inspection and everything under it |
| InspectionController.BlockedDeleteExample | src/main/java/com/example/transformer/controller/InspectionController.java:96-106 | a concrete store where the delete fails with the image's metadata already gone and the image and inspection still present |
| MaintenanceRecordController.DefaultTimestamp | src/main/java/com/example/transformer/controller/MaintenanceRecordController.java:215-222 | the requested timestamp, else the linked inspection's creation time, else the image's |
| MaintenanceRecordController.CreateOutcome | src/main/java/com/example/transformer/controller/MaintenanceRecordController.java:168-239 | 403 unless a maintenance engineer; 400 for a mismatched transformer id, a foreign or non-maintenance image or a foreign inspection; 404 for a missing transformer, image or inspection; 409 iff the image already has a record; otherwise the row with the inherited inspection, default timestamp, empty readings for none and both times now |
| MaintenanceRecordController.CreateRecord | src/main/java/com/example/transformer/controller/MaintenanceRecordController.java:163-244 | the store gains exactly the decided row under a fresh id, or nothing with the refusal (a 500 when the columns refuse it) |
| MaintenanceRecordController.SecondCreateConflicts | src/main/java/com/example/transformer/controller/MaintenanceRecordController.java:210-213 | once an image has a record, another create for it that passes the other checks is refused with 409 |
| MaintenanceRecordController.Patched | src/main/java/com/example/transformer/controller/MaintenanceRecordController.java:267-302 | owner, image and creation time untouched; a supplied field takes its value, an absent one keeps its value; the update time is now |
| MaintenanceRecordController.EmptyPatchTouchesOnlyUpdatedAt | src/main/java/com/example/transformer/controller/MaintenanceRecordController.java:278-302 | a request supplying nothing changes only the update time |
| MaintenanceRecordController.PatchIdempotent | src/main/java/com/example/transformer/controller/MaintenanceRecordController.java:267-302 | applying the same request twice is the same as applying it once |
| MaintenanceRecordController.UpdateChecked | src/main/java/com/example/transformer/controller/MaintenanceRecordController.java:251-276 | 403 unless a maintenance engineer, 400 for a mismatched id or an inspection of another transformer, 404 for a missing record or inspection; otherwise the stored record |
| MaintenanceRecordController.ApplyPatch | src/main/java/com/example/transformer/controller/MaintenanceRecordController.java:267-302 | the setters on the loaded entity produce exactly the patched record |
| MaintenanceRecordController.UpdateRecord | src/main/java/com/example/transformer/controller/MaintenanceRecordController.java:246-306 | the stored record becomes the patched one, or nothing changes and the refusal is returned |
| MaintenanceRecordController.RecordOf | src/main/java/com/example/transformer/repository/MaintenanceRecordRepository.java:13 | the record found belongs to the image; none is found only when no record uses it |
| MaintenanceRecordController.Selection | src/main/java/com/example/transformer/controller/MaintenanceRecordController.java:51-108 | 404 for a missing transformer, inspection or image; 400 for a foreign inspection or image, a non-maintenance image or none at all; the inspection is the requested one or else the image's |
| MaintenanceRecordController.GetForm | src/main/java/com/example/transformer/controller/MaintenanceRecordController.java:45-161 | the form fails iff the selection does; it shows the selected image, its regions in region-id order, all three statuses and the record written for that image |
| MaintenanceRecordController.MaintenanceImagesMembers | src/main/java/com/example/transformer/controller/MaintenanceRecordController.java:80-94 | the form's query returns exactly the transformer's stored maintenance images (of the inspection when given) |
| MaintenanceRecordController.FormShowsNewest | src/main/java/com/example/transformer/controller/MaintenanceRecordController.java:79-108 | without an explicit image the form shows the newest maintenance image, and refuses with 400 exactly when there is none |
| MaintenanceRecordController.FormShowsExistingRecord | src/main/java/com/example/transformer/controller/MaintenanceRecordController.java:121-124 | the form carries a record exactly when one exists for its image |
| TransformerController.Create | src/main/java/com/example/transformer/controller/TransformerController.java:76-85 | exactly one transformer row holding the request's four fields is added under a fresh id |
| TransformerController.Get | src/main/java/com/example/transformer/controller/TransformerController.java:92-96 | the stored transformer iff the id exists, otherwise 404 |
| TransformerController.Update | src/main/java/com/example/transformer/controller/TransformerController.java:98-106 | 404 and no change for an unknown id; otherwise the row becomes the request's fields and nothing else changes |
| TransformerController.Delete | src/main/java/com/example/transformer/controller/TransformerController.java:108-113 | 404 for an unknown id; otherwise only the transformer row goes, and the delete succeeds iff nothing references it (a 500 otherwise); no other table changes |
| TransformerController.UploadImage | src/main/java/com/example/transformer/controller/TransformerController.java:121-337 | the shared upload with the detector reply never kept as an original result; the original results are unchanged |
| TransformerController.GetAllImageErrors | src/main/java/com/example/transformer/controller/TransformerController.java:428-457 | 404 iff the image is missing, 400 iff it is not a maintenance image; otherwise one view per region of the image in region-id order, deleted ones included |
| TransformerController.ListsEveryRegion | src/main/java/com/example/transformer/controller/TransformerController.java:439-452 | every stored region of a maintenance image, soft-deleted or not, appears in the listing, and the listing has one entry per region |
| QuestionService.Get | src/main/java/com/example/transformer/service/QuestionServiceImpl.java:29-32 | the stored question iff the id exists, otherwise NotFound |
| QuestionService.Create | src/main/java/com/example/transformer/service/QuestionServiceImpl.java:17-22 | a new question holding the text is stored under a fresh id and reads back |
| QuestionService.Update | src/main/java/com/example/transformer/service/QuestionServiceImpl.java:34-39 | NotFound and no change for an unknown id; otherwise only that question's text changes |
| QuestionService.Delete | src/main/java/com/example/transformer/service/QuestionServiceImpl.java:41-45 | NotFound iff the id is unknown; afterwards the question is gone |
| QuestionService.OthersUnaffected | src/main/java/com/example/transformer/service/QuestionServiceImpl.java:34-45 | updating or deleting one question leaves every other id reading as before |
| AdminUserInitializer.AdminUser | src/main/java/com/example/transformer/bootstrap/AdminUserInitializer.java:27-33 | the seeded user is called "admin", has the ADMIN occupation and the admin flag |
| AdminUserInitializer.Seeded | src/main/java/com/example/transformer/bootstrap/AdminUserInitializer.java:26-36 | afterwards a user called "admin" exists; the table is unchanged when one already did, otherwise it gains exactly the administrator |
| AdminUserInitializer.SeedIdempotent | src/main/java/com/example/transformer/bootstrap/AdminUserInitializer.java:26 | seeding a second time, at any later moment, changes nothing |
| AdminUserInitializer.SeededAdminLogsIn | src/main/java/com/example/transformer/bootstrap/AdminUserInitializer.java:27-34 | after seeding a store without an admin, logging in as admin with the default password yields an admin session for the new row |
| AdminUserInitializer.Run | src/main/java/com/example/transformer/bootstrap/AdminUserInitializer.java:24-37 | the user table and id counter afterwards are the seeded ones |
| AuthController.UserNamed | src/main/java/com/example/transformer/repository/AppUserRepository.java:10 | the user found is called by the name; none is found only when no user is |
| AuthController.SessionOf | src/main/java/com/example/transformer/controller/AuthController.java:49-55 | the session user is an admin exactly when the occupation is ADMIN, and carries the user's id, name and occupation |
| AuthController.Authenticate | src/main/java/com/example/transformer/controller/AuthController.java:42-55 | 404 iff no user has the name, 401 iff the one who has it does not match the password, otherwise that user's session identity |
| AuthController.Login | src/main/java/com/example/transformer/controller/AuthController.java:40-67 | a session under the drawn token is opened exactly when authentication succeeds, and the response carries the token and the identity; otherwise nothing changes |
| AuthController.NewUser | src/main/java/com/example/transformer/controller/AuthController.java:82-87 | the new user's name is the trimmed request name, with the requested occupation and the admin flag off |
| AuthController.CreateUserCheckedAsWritten | src/main/java/com/example/transformer/controller/AuthController.java:73-87 | as written: 403 for a non-admin caller, 409 when the name as sent is taken, a 500 for a missing field, otherwise the new user |
| AuthController.PaddedDuplicateSlipsThrough | src/main/java/com/example/transformer/controller/AuthController.java:78-83 | with a user "alice" stored, the request name " alice " passes the check and yields a user whose name is taken |
| AuthController.CreateUserChecked | src/main/java/com/example/transformer/controller/AuthController.java:73-87 | corrected: the conflict test uses the trimmed name, so whatever passes it has a name no user holds |
| AuthController.ChecksDifferOnlyOnPaddedNames | src/main/java/com/example/transformer/controller/AuthController.java:78-83 | the two checks agree on every request whose name is taken or free both before and after trimming |
| AuthController.CreateUser | src/main/java/com/example/transformer/controller/AuthController.java:69-101 | with the corrected check: the new user is stored under a fresh id and returned without a token, or nothing changes and the refusal is returned |
| SessionService.Sessions.constructor | src/main/java/com/example/transformer/security/SessionService.java:14 | the session table starts empty |
| SessionService.Sessions.GetUser | src/main/java/com/example/transformer/security/SessionService.java:22-25 | nothing for a missing or blank token; otherwise the user the token was issued to, if any |
| SessionService.Sessions.CreateSession | src/main/java/com/example/transformer/security/SessionService.java:16-20 | the token now stands for the user and every other token keeps its user |
| SessionService.Sessions.Invalidate | src/main/java/com/example/transformer/security/SessionService.java:27-29 | the token no longer stands for anyone; a missing token changes nothing; other tokens are untouched |
| ClassificationTraining.RegionEntry | src/main/java/com/example/transformer/service/ClassificationTrainingService.java:419-459 | a region's entry holds a key exactly for each field that is not null |
| ClassificationTraining.EntryShape | src/main/java/com/example/transformer/service/ClassificationTrainingService.java:421-457 | no scalar is written as null, and a box or centroid carries all of its keys |
| ClassificationTraining.EntryRoundTrip | src/main/java/com/example/transformer/service/ClassificationTrainingService.java:418-460 | reading an entry back gives the region's exposed fields, nulls included |
| ClassificationTraining.AnomalyResults | src/main/java/com/example/transformer/service/ClassificationTrainingService.java:413-467 | the loop builds one entry per region, in the regions' order |
| ClassificationTraining.AnomalyResultsRoundTrip | src/main/java/com/example/transformer/service/ClassificationTrainingService.java:413-467 | every region sent can be read back from its entry |
| ClassificationTraining.ActiveKeys | src/main/java/com/example/transformer/repository/AnomalyDetectionConfigRepository.java:12 | exactly the keys of the active configurations, ascending |
| ClassificationTraining.ActiveConfig | src/main/java/com/example/transformer/service/ClassificationTrainingService.java:335-346 | succeeds iff at most one configuration is active and, when none is, the default can be created; yields the active one or the default |
| ClassificationTraining.TrainingInputs | src/main/java/com/example/transformer/service/ClassificationTrainingService.java:74-155 | 404 for a missing baseline or maintenance image, 400 for a baseline or maintenance image of another transformer, in that order; 500 when the configuration lookup fails; after those, 400 exactly when no undeleted region or no original result exists; otherwise the undeleted regions in region-id order, the original text and the active configuration |
| ClassificationTraining.AllDeletedRefused | src/main/java/com/example/transformer/service/ClassificationTrainingService.java:104-112 | an image whose every region is soft-deleted cannot be trained on |
| ClassificationTraining.TrainedParameters | src/main/java/com/example/transformer/service/ClassificationTrainingService.java:213-305 | the new configuration has a value for a parameter exactly when the reply's updated_config names it |
| ClassificationTraining.TrainedNameAsWritten | src/main/java/com/example/transformer/service/ClassificationTrainingService.java:200-204 | the name exists iff the clock's text has at least 19 characters, and is then 27 characters starting "trained_" |
| ClassificationTraining.WholeMinuteNameFails | src/main/java/com/example/transformer/service/ClassificationTrainingService.java:200-204 | at 2025-03-14T10:20 the name cannot be formed and training fails |
| ClassificationTraining.AsWrittenNameFailsIff | src/main/java/com/example/transformer/service/ClassificationTrainingService.java:200-204 | the as-written name fails exactly at a whole minute |
| ClassificationTraining.TrainedName | src/main/java/com/example/transformer/service/ClassificationTrainingService.java:200-205 | corrected: the name always holds the seconds and has 27 characters, within the 100-character column |
| ClassificationTraining.TrainedNameAgrees | src/main/java/com/example/transformer/service/ClassificationTrainingService.java:200-205 | wherever the as-written name exists it equals the corrected one |
| ClassificationTraining.Planned | src/main/java/com/example/transformer/service/ClassificationTrainingService.java:74-325 | a failed check is returned as is; otherwise the plan deactivates the configuration the checks found and adds an active one under the corrected name |
| ClassificationTraining.NoUpdatedConfigFails | src/main/java/com/example/transformer/service/ClassificationTrainingService.java:195-324 | a reply without updated_config fails the training |
| ClassificationTraining.PlannedFits | src/main/java/com/example/transformer/service/ClassificationTrainingService.java:94-209 | the configuration to deactivate is the single active one, or there is none and the default can be created |
| ClassificationTraining.CommitLeavesOneActive | src/main/java/com/example/transformer/service/ClassificationTrainingService.java:206-309 | after the writes exactly one configuration is active: the new one |
| ClassificationTraining.Commit | src/main/java/com/example/transformer/service/ClassificationTrainingService.java:206-309 | the writes succeed iff the new name is free, and the table is then the committed one; otherwise it is rolled back |
| ClassificationTraining.StoreCurrent | src/main/java/com/example/transformer/service/ClassificationTrainingService.java:337-343 | with no active configuration the default is stored under the next key first; an active one is used as it is |
| ClassificationTraining.DeactivateAndInsert | src/main/java/com/example/transformer/service/ClassificationTrainingService.java:206-309 | the current configuration is saved inactive, then the new one is inserted under the next key exactly when its name is free |
| ClassificationTraining.TrainModel | src/main/java/com/example/transformer/service/ClassificationTrainingService.java:73-187 | on success the table is the committed one and the response names the new configuration's id and name; every failure leaves the configurations as they were |
| TransformerFiles.ResolveDir | src/main/java/com/example/transformer/service/controller/TransformerImageController.java:134-140 | accepted iff the lower-cased type (null read as empty) is "baseline" or "maintenance", which then names the directory; otherwise an illegal-argument failure |
| TransformerFiles.Truncate | src/main/java/com/example/transformer/service/controller/TransformerImageController.java:89-91 | the result is a prefix of the listing, of the limit's length when 0 < limit < size and the whole listing otherwise |
| TransformerFiles.Utf8 | src/main/java/com/example/transformer/service/controller/TransformerImageController.java:177 | a character is one to four bytes |
| TransformerFiles.Percent | src/main/java/com/example/transformer/service/controller/TransformerImageController.java:177 | three characters per byte, each '%' or a hexadecimal digit |
| TransformerFiles.EncodeChar | src/main/java/com/example/transformer/service/controller/TransformerImageController.java:177 | an unreserved character stands for itself and nothing else does; the encoding never contains '/' |
| TransformerFiles.EncodeSegment | src/main/java/com/example/transformer/service/controller/TransformerImageController.java:177 | an encoded segment is at least as long as the segment and consists only of URL characters, never '/' |
| TransformerFiles.Encoded | src/main/java/com/example/transformer/service/controller/TransformerImageController.java:175-179 | the encoded segments are non-empty and free of '/', and no more numerous than the segments |
| TransformerFiles.ToPublicUrl | src/main/java/com/example/transformer/service/controller/TransformerImageController.java:172-184 | the builder loop yields exactly the public URL: "/files/" then the encoded non-empty segments joined by '/' |
| TransformerFiles.PublicUrlShape | src/main/java/com/example/transformer/service/controller/TransformerImageController.java:172-184 | a public URL starts with "/files", never ends with '/', and its path splits back into exactly the encoded non-empty segments |
| TransformerFiles.BackslashIsSeparator | src/main/java/com/example/transformer/service/controller/TransformerImageController.java:173 | a backslash separates segments exactly as a slash does |
| TransformerFiles.GuessContentType | src/main/java/com/example/transformer/service/controller/TransformerImageController.java:161-169 | each image type is chosen exactly when the lower-cased name has its suffix, and octet-stream exactly when none matches |
| TransformerFiles.ListUrlsForType | src/main/java/com/example/transformer/service/controller/TransformerImageController.java:79-97 | fails iff the type is refused; a missing directory gives no URLs; otherwise one URL per listed file of the cut listing, in order |
| TransformerFiles.ListByType | src/main/java/com/example/transformer/service/controller/TransformerImageController.java:46-57 | without a type (null or blank) the baseline URLs then the maintenance URLs, each cut on its own; otherwise the list of the trimmed, lower-cased type |
| TransformerFiles.UntypedListingBounded | src/main/java/com/example/transformer/service/controller/TransformerImageController.java:50-54 | with a positive limit and no type at most twice the limit URLs come back |
| Common.Truncate | src/main/java/com/example/transformer/service/ErrorAnnotationService.java:47-50 | the integer part toward zero, as a double's `intValue` gives it, for either sign |
| Common.Round | src/main/java/com/example/transformer/service/ErrorAnnotationService.java:41-44 | the nearest integer, halves rounded up, as `Math.round` gives it |
| LocalDateTime.IsoString | src/main/java/com/example/transformer/service/ClassificationTrainingService.java:200-201 | the clock's text is 16 characters exactly at a whole minute and at least 19 otherwise, and starts with the date, hour and minute |

## Left out

- The exception handler (`GlobalExceptionHandler`) is not part of this model. The model stops at the exception raised. In the source the catch-all handler for `Exception` also receives the `ResponseStatusException`s, and the `IllegalStateException` of a second soft delete reaches it as well.
- HTTP plumbing is not modelled: response wrappers, multipart parsing, bean validation. Fields that validation declares non-null are plain values in the request datatypes.
- The thin controllers (`QuestionController`, `TrainingController`) and the per-request user holder (`AuthFilter`, `CurrentUserHolder`) are not modelled. The caller's session user is a parameter.
- `FileStorageService` is not modelled. Storage paths and file contents are parameters, and so is the directory listing, which the source sorts by modification time. The base64 listing endpoints and the raw-file endpoint only read files, so they are left out.
- The network calls are parameters that return the reply text or nothing: the detector call and the classification-server call.
- JSON parsing and Jackson's number coercions are not modelled. The parser is a parameter. `asInt` and `asDouble` on a text node read as 0.
- `createConfigJson`, the `top_left_box` parameter and the 41 named configuration fields with their defaults are not modelled. A configuration is a name, a description, a map of parameter values and an active flag.
- Floating point is modelled as exact reals: NaN, infinities and rounding error are not. 32-bit integer overflow is ignored, and so is the range of `Long` ids.
- UUIDs are not computed. The name-based UUID is an injective constructor over the name. Random UUID tokens are parameters.
- The clock is an integer time line, except where the text of `LocalDateTime.toString` matters (training names). There, dates with a year outside 1000–9999 are excluded.
- The store's identity sequence is one counter shared by all tables. An id is never reused, and a rolled-back insert does not give its id back.
- `trainModel` is one transaction: every failure leaves the configuration table unchanged. The inspection delete and the upload are not transactions, and the model keeps their partial effects.
- Listing endpoints without logic of their own are not modelled: the transformer list, the inspection list, the maintenance-record list and read, and the display-metadata read.
- The debug endpoint that dumps the regions of the newest maintenance image is a read-only diagnostic and is not modelled.
- The question list with paging is not modelled.
- ImageUpload.Upload: the `inspectionId` request parameter is ignored, as in the source; only the one inside `meta` counts.
- MaintenanceRecordController.FormShowsNewest: maintenance images created at the same instant are not ordered against each other.
- The password check is a parameter, and so is the hash it compares against.
- Case mapping covers the ASCII letters only, and a default locale without special rules for ASCII letters (not Turkish or Azeri) is assumed. Java maps all of Unicode, and under a Turkish default locale "CRITICAL".toLowerCase() is "crıtıcal". The whitespace test does follow `Character.isWhitespace` over all of Unicode.
- TagStatus: the upper-casing of the tag maps ASCII letters only. A tag that reaches a recognised word only through a non-ASCII letter is recognised by the source but not by the model: the dotless "ı" upper-cases to "I", and "ſ" (long s) to "S". A Turkish default locale, under which "critical" does not upper-case to "CRITICAL", is not modelled either.
- LowerCaseTagRecognised: proved for the ASCII case mapping only, under a default locale that maps "i" to "I".
- ResolveDir: lower-cases ASCII letters only. Under `Locale.ROOT` every other character lower-cases to text holding a non-ASCII character, except U+212A (the Kelvin sign), which gives "k"; neither "baseline" nor "maintenance" holds a "k", so which types are accepted is the same as in the source.
- ListByType: the given type is lower-cased with the default locale, modelled as ASCII-only; under a Turkish default locale "BASELINE" would not name the baseline directory, which the model does not capture.
- Ordering of query results: a derived `...OrderBy...` query is modelled as a stable sort of the rows in ascending key order, with null region ids after all others. SQL fixes neither the order of rows with equal keys nor, in general, where nulls go (some databases put them first). Every ordered listing inherits this choice.
- ByRegionIdCorrect: states the sort under the model's choice of nulls last and ties in key order; the database may order nulls and ties otherwise, and then only the permutation and the order of the non-null region ids carry over.
- NewestBaseline: baselines created at the same instant are taken in key order, which the database does not promise; the partner image is then one of the newest baselines, not necessarily the one the model picks.
- NewImage: the creation time the database gives the row is the parameter `storedAt`; a column without a default, which would store null, is not modelled.
- Display metadata is keyed by image id. The schema would allow several rows for one image, but only the upload writes them, once per image, and the reader expects one at most.
- JSON objects are field sequences. Where a reply repeats a key, `Json.Lookup` takes the first occurrence, while Jackson's tree keeps the last value.
- The training service reads the clock three times: for the name, for the description and for `trainedAt`. The model passes one instant for all three.
- Repository methods and a field the code uses but the sources do not declare are given their evident meaning. `deleteByInspectionId` on maintenance records and `deleteByImageId` on original results and display metadata (InspectionController.java:96-103) become `Db.DeleteRecordsOfInspection`, `Db.DeleteOriginalOfImage` and `Db.DeleteMetadataOfImage`: each removes exactly the matching rows and always succeeds. The image's link to its inspection (`findByInspectionId`, `getInspection()`) is the field `Image.inspection`, which TransformerImage.java does not declare. Unlike the region delete (FaultRegionRepository.java:19-21), none of these deletes is marked `@Transactional`; that a derived delete outside a transaction may fail is not modelled. `findByInspectionId` has no ORDER BY, and `InspectionController.ImagesOf` takes the images in ascending key order; the partial state left by a blocked inspection delete depends on that order.
- Several routes are mapped by two handlers: the image upload (TransformerController.java:121 and TransformerImageController.java:58), the image error listing (TransformerController.java:428 and ImageErrorAnnotationController.java:37), the inspection list and create (TransformerController.java:514 and 522, InspectionController.java:46 and 54), and the `fault-regions`, `anomaly-results`, `display-metadata` and `raw` routes. Two controller classes are also both named `TransformerImageController`, so the application as written would not start. Each handler is modelled on its own, as if it alone served its route. Which one serves a route matters: only `ImageUpload.Upload` keeps the original result that `ClassificationTraining.TrainingInputs` requires, and `TransformerController.UploadImage` does not.
- Text columns without a declared length are unbounded in the model. The default VARCHAR(255) of a generated schema is not enforced: the region's type, colour, tag, comment and audit names, the user's name, and the text fields of transformers, inspections and images. Only the declared lengths are checked: 2000 for the record remarks and 100 for the configuration name. A generated schema would refuse a longer value, and the request would fail with a 500.
- CreateUser: "the store never refuses a user that passed the check" relies on the unbounded name column; with VARCHAR(255), a name longer than 255 characters would fail with a 500.
- CreateErrorAnnotation: accepts a comment of any length, where a VARCHAR(255) column would refuse one longer than 255 characters with a 500.

## Findings

| source | as written | input that shows it | evidently intended | confidence | as-written member | corrected member |
|---|---|---|---|---|---|---|
| src/main/java/com/example/transformer/controller/InspectionController.java:96-108 | deletes only the maintenance records filed under the inspection; the delete of an image that another record still uses is refused, so the request fails half way | inspection 1 with image 3; a record filed under inspection 2 whose maintenance image is 3 | the records that use the inspection's images go before those images, and the delete completes | high (not executed) | InspectionController.DeleteInspection, InspectionController.BlockedDeleteExample | InspectionController.DeleteInspectionFixed, InspectionController.FixedCascadeCleans |
| src/main/java/com/example/transformer/controller/AuthController.java:78-83 | the 409 check looks up the name as sent, but the trimmed name is stored | user "alice" stored; an admin creates " alice " | the check looks up the trimmed name, so a taken name gets 409 instead of a unique-column failure | high (not executed) | AuthController.CreateUserCheckedAsWritten, AuthController.PaddedDuplicateSlipsThrough | AuthController.CreateUserChecked, AuthController.CreateUser |
| src/main/java/com/example/transformer/service/ClassificationTrainingService.java:200-204 | `substring(0, 19)` of `LocalDateTime.now().toString()`, which has 16 characters at a whole minute, so training fails | training at 2025-03-14T10:20:00 | the name `trained_yyyy-MM-dd_HH-mm-ss` with the seconds always written | high (not executed) | ClassificationTraining.TrainedNameAsWritten, ClassificationTraining.WholeMinuteNameFails | ClassificationTraining.TrainedName, ClassificationTraining.TrainedNameAgrees |
