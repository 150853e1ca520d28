/** The relational store behind the repositories: one table per entity, keyed
    by the store-assigned identity (the original results by the id of their
    image, a column the schema makes unique; the display metadata by the id
    of its image too, a choice of this model, since the upload writes at most
    one such row per image and the reader expects one at most), with the
    declared constraints — foreign keys, unique columns and column lengths —
    enforced on every write. */
module Database {
  import opened Common
  import opened Entities
  import opened FaultRegionModel

  /** The rows of `m` with keys in [lo, hi), in ascending key order: the order
      an identity-keyed table returns its rows in. */
  function Rows<T>(m: map<nat, T>, lo: nat, hi: nat): (r: seq<T>)
    ensures |r| <= hi - lo || lo >= hi
    decreases hi - lo
  {
    if lo >= hi then []
    else if lo in m then [m[lo]] + Rows(m, lo + 1, hi)
    else Rows(m, lo + 1, hi)
  }

  lemma {:induction false} RowsMembers<T>(m: map<nat, T>, lo: nat, hi: nat, x: T)
    ensures x in Rows(m, lo, hi) <==> exists k :: k in m && lo <= k < hi && m[k] == x
    decreases hi - lo
  {
    if lo < hi {
      RowsMembers(m, lo + 1, hi, x);
    }
  }

  /** Adding a row under a key beyond every existing key appends it. */
  lemma {:induction false} RowsAppend<T>(m: map<nat, T>, lo: nat, n: nat, v: T)
    requires lo <= n
    requires forall k :: k in m ==> k < n
    ensures Rows(m[n := v], lo, n + 1) == Rows(m, lo, n) + [v]
    decreases n - lo
  {
    if lo < n {
      RowsAppend(m, lo + 1, n, v);
    }
  }

  /** Rows are unaffected by keys outside [lo, hi). */
  lemma {:induction false} RowsOutside<T>(m: map<nat, T>, m': map<nat, T>, lo: nat, hi: nat)
    requires forall k :: lo <= k < hi ==> (k in m <==> k in m') && (k in m ==> m[k] == m'[k])
    ensures Rows(m, lo, hi) == Rows(m', lo, hi)
    decreases hi - lo
  {
    if lo < hi {
      RowsOutside(m, m', lo + 1, hi);
    }
  }

  /** The whole store as a value. */
  datatype Tables = Tables(
    transformers: map<nat, Transformer>,
    inspections: map<nat, Inspection>,
    images: map<nat, Image>,
    regions: map<nat, RegionRow>,
    metadata: map<nat, DisplayMetadata>,
    originals: map<nat, OriginalResult>,
    records: map<nat, RecordRow>,
    users: map<nat, AppUser>,
    questions: map<nat, Question>,
    configs: map<nat, Config>,
    nextId: nat)

  /** Identities are allocated from one counter and never reused. */
  predicate KeysBelow<T>(m: map<nat, T>, n: nat)
  {
    forall k :: k in m ==> k < n
  }

  predicate KeysWithin<T, U>(m: map<nat, T>, owners: map<nat, U>)
  {
    forall k :: k in m ==> k in owners
  }

  /** Image and region rows carry their own key. */
  predicate ImagesKeyed(images: map<nat, Image>)
  {
    forall k :: k in images ==> images[k].id == k
  }

  predicate RegionsKeyed(regions: map<nat, RegionRow>)
  {
    forall k :: k in regions ==> regions[k].dbId == Some(k)
  }

  predicate InspectionRefs(inspections: map<nat, Inspection>, transformers: map<nat, Transformer>)
  {
    forall k :: k in inspections ==> inspections[k].transformer in transformers
  }

  predicate ImageRefs(images: map<nat, Image>, transformers: map<nat, Transformer>, inspections: map<nat, Inspection>)
  {
    forall k :: k in images ==>
      images[k].transformer in transformers
      && (images[k].inspection.Some? ==> images[k].inspection.value in inspections)
  }

  predicate RegionRefs(regions: map<nat, RegionRow>, images: map<nat, Image>)
  {
    forall k :: k in regions && regions[k].image.Some? ==> regions[k].image.value in images
  }

  predicate RecordRefOk(r: RecordRow, transformers: map<nat, Transformer>, images: map<nat, Image>,
                        inspections: map<nat, Inspection>)
  {
    r.transformer in transformers && r.maintenanceImage in images
    && (r.inspection.Some? ==> r.inspection.value in inspections)
  }

  predicate RecordRefs(records: map<nat, RecordRow>, transformers: map<nat, Transformer>,
                       images: map<nat, Image>, inspections: map<nat, Inspection>)
  {
    forall k :: k in records ==> RecordRefOk(records[k], transformers, images, inspections)
  }

  predicate RecordColumnsOk(r: RecordRow)
  {
    FitsColumn(r.recommendedAction) && FitsColumn(r.additionalRemarks)
  }

  /** One record per maintenance image, and the declared column lengths. */
  predicate RecordsConstrained(records: map<nat, RecordRow>)
  {
    (forall a, b :: a in records && b in records && a != b ==>
       records[a].maintenanceImage != records[b].maintenanceImage)
    && (forall k :: k in records ==> RecordColumnsOk(records[k]))
  }

  predicate UsersConstrained(users: map<nat, AppUser>)
  {
    forall a, b :: a in users && b in users && a != b ==> users[a].name != users[b].name
  }

  predicate ConfigsConstrained(configs: map<nat, Config>)
  {
    (forall a, b :: a in configs && b in configs && a != b ==> configs[a].configName != configs[b].configName)
    && (forall k :: k in configs ==> |configs[k].configName| <= ConfigNameLength)
  }

  predicate ValidTables(t: Tables)
  {
    KeysBelow(t.transformers, t.nextId) && KeysBelow(t.inspections, t.nextId)
    && KeysBelow(t.images, t.nextId) && KeysBelow(t.regions, t.nextId)
    && KeysBelow(t.records, t.nextId) && KeysBelow(t.users, t.nextId)
    && KeysBelow(t.questions, t.nextId) && KeysBelow(t.configs, t.nextId)
    && ImagesKeyed(t.images) && RegionsKeyed(t.regions)
    && InspectionRefs(t.inspections, t.transformers)
    && ImageRefs(t.images, t.transformers, t.inspections)
    && RegionRefs(t.regions, t.images)
    && KeysWithin(t.metadata, t.images) && KeysWithin(t.originals, t.images)
    && RecordRefs(t.records, t.transformers, t.images, t.inspections)
    && RecordsConstrained(t.records) && UsersConstrained(t.users) && ConfigsConstrained(t.configs)
  }

  /** Only references block deleting an image. */
  lemma UnreferencedImageDeletable(t: Tables, id: nat)
    requires ValidTables(t) && !ImageReferenced(t, id)
    ensures ValidTables(t.(images := t.images - {id}))
  {
    var u := t.(images := t.images - {id});
    assert RegionRefs(u.regions, u.images);
    assert KeysWithin(u.metadata, u.images) && KeysWithin(u.originals, u.images);
    assert RecordRefs(u.records, u.transformers, u.images, u.inspections);
  }

  /** An image is still referenced by some row (which blocks deleting it). */
  predicate ImageReferenced(t: Tables, id: nat)
  {
    (exists k :: k in t.regions && t.regions[k].image == Some(id))
    || id in t.metadata || id in t.originals
    || (exists k :: k in t.records && t.records[k].maintenanceImage == id)
  }

  predicate InspectionReferenced(t: Tables, id: nat)
  {
    (exists k :: k in t.images && t.images[k].inspection == Some(id))
    || (exists k :: k in t.records && t.records[k].inspection == Some(id))
  }

  predicate TransformerReferenced(t: Tables, id: nat)
  {
    (exists k :: k in t.inspections && t.inspections[k].transformer == id)
    || (exists k :: k in t.images && t.images[k].transformer == id)
    || (exists k :: k in t.records && t.records[k].transformer == id)
  }

  /** A user with this exact name, if any (`findByName`). */
  predicate NameTaken(users: map<nat, AppUser>, name: string)
  {
    exists k :: k in users && users[k].name == name
  }

  predicate RecordForImage(records: map<nat, RecordRow>, image: nat)
  {
    exists k :: k in records && records[k].maintenanceImage == image
  }

  /** A record row the schema accepts in place of the row with key `id`
      (`id` is a fresh key when inserting). */
  predicate RecordAcceptable(records: map<nat, RecordRow>, id: nat, r: RecordRow)
  {
    RecordColumnsOk(r)
    && forall k :: k in records && k != id ==> records[k].maintenanceImage != r.maintenanceImage
  }

  predicate ConfigAcceptable(configs: map<nat, Config>, id: nat, c: Config)
  {
    |c.configName| <= ConfigNameLength
    && forall k :: k in configs && k != id ==> configs[k].configName != c.configName
  }

  /** A fault region as it reads back from the store: an embedded value whose
      columns are all null reads back as null, and the colour collection
      always reads back as a list, empty when none was stored. */
  function Persisted(r: RegionRow): (p: RegionRow)
    ensures p.boundingBox.Some? <==> r.boundingBox.Some? && !r.boundingBox.value.IsEmpty()
    ensures p.centroid.Some? <==> r.centroid.Some? && !r.centroid.value.IsEmpty()
    ensures p.boundingBox.Some? ==> p.boundingBox == r.boundingBox
    ensures p.centroid.Some? ==> p.centroid == r.centroid
    ensures p.colorRgb == Some(r.colorRgb.GetOr([]))
    ensures p.(boundingBox := r.boundingBox, centroid := r.centroid, colorRgb := r.colorRgb) == r
  {
    r.(boundingBox := if r.boundingBox.Some? && r.boundingBox.value.IsEmpty() then None else r.boundingBox,
       centroid := if r.centroid.Some? && r.centroid.value.IsEmpty() then None else r.centroid,
       colorRgb := Some(r.colorRgb.GetOr([])))
  }

  class Db {
    var transformers: map<nat, Transformer>
    var inspections: map<nat, Inspection>
    var images: map<nat, Image>
    var regions: map<nat, RegionRow>
    var metadata: map<nat, DisplayMetadata>
    var originals: map<nat, OriginalResult>
    var records: map<nat, RecordRow>
    var users: map<nat, AppUser>
    var questions: map<nat, Question>
    var configs: map<nat, Config>
    var nextId: nat

    function Snapshot(): Tables
      reads this
    {
      Tables(transformers, inspections, images, regions, metadata, originals,
             records, users, questions, configs, nextId)
    }

    predicate Valid()
      reads this
    {
      ValidTables(Snapshot())
    }

    constructor ()
      ensures Valid()
      ensures transformers == map[] && inspections == map[] && images == map[] && regions == map[]
      ensures metadata == map[] && originals == map[] && records == map[] && users == map[]
      ensures questions == map[] && configs == map[] && nextId == 0
    {
      transformers, inspections, images, regions := map[], map[], map[], map[];
      metadata, originals, records, users := map[], map[], map[], map[];
      questions, configs, nextId := map[], map[], 0;
    }

    /** The identity the next insert receives. */
    method AllocateId() returns (id: nat)
      modifies this`nextId
      ensures id == old(nextId) && nextId == id + 1
    {
      id := nextId;
      nextId := nextId + 1;
    }

    method InsertTransformer(t: Transformer) returns (id: nat)
      requires Valid()
      modifies this`transformers, this`nextId
      ensures Valid()
      ensures id == old(nextId) && nextId == id + 1 && id !in old(transformers)
      ensures transformers == old(transformers)[id := t]
    {
      id := AllocateId();
      transformers := transformers[id := t];
    }

    method SaveTransformer(id: nat, t: Transformer)
      requires Valid() && id in transformers
      modifies this`transformers
      ensures Valid()
      ensures transformers == old(transformers)[id := t]
    {
      transformers := transformers[id := t];
    }

    /** `deleteById`; refused (no change) while any row still references it. */
    method DeleteTransformer(id: nat) returns (ok: bool)
      requires Valid() && id in transformers
      modifies this`transformers
      ensures Valid()
      ensures ok <==> !TransformerReferenced(old(Snapshot()), id)
      ensures transformers == if ok then old(transformers) - {id} else old(transformers)
      ensures Snapshot() == old(Snapshot()).(transformers := transformers)
    {
      ok := !TransformerReferenced(Snapshot(), id);
      if ok {
        transformers := transformers - {id};
      }
    }

    method InsertInspection(i: Inspection) returns (id: nat)
      requires Valid() && i.transformer in transformers
      modifies this`inspections, this`nextId
      ensures Valid()
      ensures id == old(nextId) && nextId == id + 1 && id !in old(inspections)
      ensures inspections == old(inspections)[id := i]
    {
      id := AllocateId();
      inspections := inspections[id := i];
    }

    /** `delete(inspection)`; refused while an image or record references it. */
    method DeleteInspection(id: nat) returns (ok: bool)
      requires Valid() && id in inspections
      modifies this`inspections
      ensures Valid()
      ensures ok <==> !InspectionReferenced(old(Snapshot()), id)
      ensures inspections == if ok then old(inspections) - {id} else old(inspections)
      ensures Snapshot() == old(Snapshot()).(inspections := inspections)
    {
      ok := !InspectionReferenced(Snapshot(), id);
      if ok {
        inspections := inspections - {id};
      }
    }

    method InsertImage(im: Image) returns (saved: Image)
      requires Valid() && im.transformer in transformers
      requires im.inspection.Some? ==> im.inspection.value in inspections
      modifies this`images, this`nextId
      ensures Valid()
      ensures saved == im.(id := old(nextId)) && nextId == old(nextId) + 1 && saved.id !in old(images)
      ensures images == old(images)[saved.id := saved]
    {
      var id := AllocateId();
      saved := im.(id := id);
      images := images[id := saved];
    }

    /** `delete(image)`; refused while a region, metadata, original result or
        maintenance record still references it. */
    method DeleteImage(id: nat) returns (ok: bool)
      requires Valid() && id in images
      modifies this`images
      ensures Valid()
      ensures ok <==> !ImageReferenced(old(Snapshot()), id)
      ensures images == if ok then old(images) - {id} else old(images)
      ensures Snapshot() == old(Snapshot()).(images := images)
    {
      ok := !ImageReferenced(Snapshot(), id);
      if ok {
        UnreferencedImageDeletable(Snapshot(), id);
        images := images - {id};
      }
    }

    /** `save` of a new fault region: assigns the identity and stores the row
        as it reads back. */
    method InsertRegion(r: RegionRow) returns (id: nat)
      requires Valid() && (r.image.Some? ==> r.image.value in images)
      modifies this`regions, this`nextId
      ensures Valid()
      ensures id == old(nextId) && nextId == id + 1 && id !in old(regions)
      ensures regions == old(regions)[id := Persisted(r.(dbId := Some(id)))]
    {
      id := AllocateId();
      regions := regions[id := Persisted(r.(dbId := Some(id)))];
    }

    /** `save` of an existing fault region: replaces its row. */
    method UpdateRegion(r: RegionRow)
      requires Valid() && r.dbId.Some? && r.dbId.value in regions
      requires r.image.Some? ==> r.image.value in images
      modifies this`regions
      ensures Valid()
      ensures regions == old(regions)[r.dbId.value := Persisted(r)]
    {
      regions := regions[r.dbId.value := Persisted(r)];
    }

    /** `deleteByImageId` on the fault regions. */
    method DeleteRegionsOfImage(imageId: nat)
      requires Valid()
      modifies this`regions
      ensures Valid()
      ensures regions == map k | k in old(regions) && old(regions)[k].image != Some(imageId) :: old(regions)[k]
      ensures Snapshot() == old(Snapshot()).(regions := regions)
    {
      regions := map k | k in regions && regions[k].image != Some(imageId) :: regions[k];
    }

    method InsertMetadata(imageId: nat, dm: DisplayMetadata)
      requires Valid() && imageId in images && imageId !in metadata
      modifies this`metadata
      ensures Valid()
      ensures metadata == old(metadata)[imageId := dm]
    {
      metadata := metadata[imageId := dm];
    }

    /** `deleteByImageId` on the display metadata. */
    method DeleteMetadataOfImage(imageId: nat)
      requires Valid()
      modifies this`metadata
      ensures Valid()
      ensures metadata == old(metadata) - {imageId}
      ensures Snapshot() == old(Snapshot()).(metadata := metadata)
    {
      metadata := metadata - {imageId};
    }

    /** `save` of a new original result: the pre-persist hook stamps it; the
        unique image column refuses a second result for the same image. */
    method InsertOriginal(o: OriginalAnomalyResult, now: Time) returns (ok: bool)
      requires Valid() && o.image in images
      modifies this`originals, o`createdAt
      ensures Valid()
      ensures ok <==> o.image !in old(originals)
      ensures ok ==> o.createdAt == Some(now)
      ensures originals == if ok then old(originals)[o.image := OriginalResult(o.anomalyJson, now)]
                           else old(originals)
    {
      ok := o.image !in originals;
      if ok {
        o.PrePersist(now);
        originals := originals[o.image := OriginalResult(o.anomalyJson, now)];
      }
    }

    /** `deleteByImageId` on the original results. */
    method DeleteOriginalOfImage(imageId: nat)
      requires Valid()
      modifies this`originals
      ensures Valid()
      ensures originals == old(originals) - {imageId}
      ensures Snapshot() == old(Snapshot()).(originals := originals)
    {
      originals := originals - {imageId};
    }

    method InsertRecord(r: RecordRow) returns (ok: bool, id: nat)
      requires Valid() && RecordRefOk(r, transformers, images, inspections)
      modifies this`records, this`nextId
      ensures Valid()
      ensures ok <==> RecordAcceptable(old(records), old(nextId), r)
      ensures ok ==> id == old(nextId) && nextId == id + 1 && id !in old(records)
                     && records == old(records)[id := r]
      ensures !ok ==> records == old(records) && nextId == old(nextId)
    {
      ok := RecordAcceptable(records, nextId, r);
      id := nextId;
      if ok {
        id := AllocateId();
        records := records[id := r];
      }
    }

    method UpdateRecord(id: nat, r: RecordRow) returns (ok: bool)
      requires Valid() && id in records && RecordRefOk(r, transformers, images, inspections)
      modifies this`records
      ensures Valid()
      ensures ok <==> RecordAcceptable(old(records), id, r)
      ensures records == if ok then old(records)[id := r] else old(records)
    {
      ok := RecordAcceptable(records, id, r);
      if ok {
        records := records[id := r];
      }
    }

    /** `deleteByInspectionId` on the maintenance records. */
    method DeleteRecordsOfInspection(inspectionId: nat)
      requires Valid()
      modifies this`records
      ensures Valid()
      ensures records == map k | k in old(records) && old(records)[k].inspection != Some(inspectionId) :: old(records)[k]
      ensures Snapshot() == old(Snapshot()).(records := records)
    {
      records := map k | k in records && records[k].inspection != Some(inspectionId) :: records[k];
    }

    /** Deleting the maintenance records of one image (`deleteByMaintenanceImageId`). */
    method DeleteRecordsOfImage(imageId: nat)
      requires Valid()
      modifies this`records
      ensures Valid()
      ensures records == map k | k in old(records) && old(records)[k].maintenanceImage != imageId :: old(records)[k]
      ensures Snapshot() == old(Snapshot()).(records := records)
    {
      records := map k | k in records && records[k].maintenanceImage != imageId :: records[k];
    }

    /** `save` of a new user; the unique name column refuses a duplicate. */
    method InsertUser(u: AppUser) returns (ok: bool, id: nat)
      requires Valid()
      modifies this`users, this`nextId
      ensures Valid()
      ensures ok <==> !NameTaken(old(users), u.name)
      ensures ok ==> id == old(nextId) && nextId == id + 1 && users == old(users)[id := u]
      ensures !ok ==> users == old(users) && nextId == old(nextId)
    {
      ok := !NameTaken(users, u.name);
      id := nextId;
      if ok {
        id := AllocateId();
        users := users[id := u];
      }
    }

    method InsertQuestion(q: Question) returns (id: nat)
      requires Valid()
      modifies this`questions, this`nextId
      ensures Valid()
      ensures id == old(nextId) && nextId == id + 1 && id !in old(questions)
      ensures questions == old(questions)[id := q]
    {
      id := AllocateId();
      questions := questions[id := q];
    }

    method SaveQuestion(id: nat, q: Question)
      requires Valid() && id in questions
      modifies this`questions
      ensures Valid()
      ensures questions == old(questions)[id := q]
    {
      questions := questions[id := q];
    }

    method DeleteQuestion(id: nat)
      requires Valid()
      modifies this`questions
      ensures Valid()
      ensures questions == old(questions) - {id}
    {
      questions := questions - {id};
    }

    method InsertConfig(c: Config) returns (ok: bool, id: nat)
      requires Valid()
      modifies this`configs, this`nextId
      ensures Valid()
      ensures ok <==> ConfigAcceptable(old(configs), old(nextId), c)
      ensures ok ==> id == old(nextId) && nextId == id + 1 && id !in old(configs)
                     && configs == old(configs)[id := c]
      ensures !ok ==> configs == old(configs) && nextId == old(nextId)
    {
      ok := ConfigAcceptable(configs, nextId, c);
      id := nextId;
      if ok {
        id := AllocateId();
        configs := configs[id := c];
      }
    }

    /** A rolled-back transaction: the configuration table returns to an
        earlier state (identities already drawn stay drawn). */
    method RestoreConfigs(saved: map<nat, Config>)
      requires Valid() && ConfigsConstrained(saved) && KeysBelow(saved, nextId)
      modifies this`configs
      ensures Valid()
      ensures Snapshot() == old(Snapshot()).(configs := saved)
    {
      configs := saved;
    }

    method SaveConfig(id: nat, c: Config) returns (ok: bool)
      requires Valid() && id in configs
      modifies this`configs
      ensures Valid()
      ensures ok <==> ConfigAcceptable(old(configs), id, c)
      ensures configs == if ok then old(configs)[id := c] else old(configs)
    {
      ok := ConfigAcceptable(configs, id, c);
      if ok {
        configs := configs[id := c];
      }
    }
  }
}
