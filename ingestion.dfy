/** Reading the anomaly detector's reply into stored rows: one fault region
    per entry of "fault_regions", the image's display metadata, and, on the
    upload path that keeps it, the reply text itself. */
module DetectorIngestion {
  import opened Common
  import opened Json
  import opened FaultRegionModel
  import opened Entities
  import opened Database
  import Text

  /** `node.has(key) && !node.get(key).isNull() ? node.get(key).asInt() : null`. */
  function IntField(node: Json, key: string): Option<int>
  {
    match Present(node, key)
    case Some(v) => Some(AsInt(v))
    case None => None
  }

  /** The same guard around `asText()`. */
  function TextField(node: Json, key: string): Option<string>
  {
    match Present(node, key)
    case Some(v) => Some(AsText(v))
    case None => None
  }

  /** The same guard around `asDouble()`. */
  function RealField(node: Json, key: string): Option<real>
  {
    match Present(node, key)
    case Some(v) => Some(AsDouble(v))
    case None => None
  }

  /** The same guard around `asBoolean()`. */
  function BoolField(node: Json, key: string): Option<bool>
  {
    match Present(node, key)
    case Some(v) => Some(AsBoolean(v))
    case None => None
  }

  /** The integer values of the non-null entries of `cs`, in order. */
  function NonNullInts(cs: seq<Json>): (rgb: seq<int>)
    ensures |rgb| <= |cs|
    decreases |cs|
  {
    if cs == [] then []
    else NonNullInts(cs[..|cs| - 1]) + (if cs[|cs| - 1].JNull? then [] else [AsInt(cs[|cs| - 1])])
  }

  /** The nodes a list of integers is written as. */
  function IntNodes(xs: seq<int>): (cs: seq<Json>)
    ensures |cs| == |xs|
    ensures forall i :: 0 <= i < |xs| ==> cs[i] == JInt(xs[i])
  {
    seq(|xs|, i requires 0 <= i < |xs| => JInt(xs[i]))
  }

  /** A list of integers written as JSON reads back unchanged. */
  lemma {:induction false} NonNullIntsOfInts(xs: seq<int>)
    ensures NonNullInts(IntNodes(xs)) == xs
    decreases |xs|
  {
    if xs != [] {
      var n := |xs| - 1;
      assert IntNodes(xs)[..n] == IntNodes(xs[..n]);
      NonNullIntsOfInts(xs[..n]);
      assert xs[..n] + [xs[n]] == xs;
    }
  }

  /** The colour list of a region entry: the non-null elements of "color_rgb",
      empty when the key is absent or null. */
  function ColorRgbOf(fr: Json): seq<int>
  {
    match Present(fr, "color_rgb")
    case Some(list) => NonNullInts(Children(list))
    case None => []
  }

  /** The loop that collects the colour list. */
  method ReadColorRgb(fr: Json) returns (rgb: seq<int>)
    ensures rgb == ColorRgbOf(fr)
  {
    rgb := [];
    var list := Present(fr, "color_rgb");
    if list.Some? {
      var cs := Children(list.value);
      var i := 0;
      while i < |cs|
        invariant 0 <= i <= |cs|
        invariant rgb == NonNullInts(cs[..i])
      {
        assert cs[..i + 1][..i] == cs[..i];
        if !cs[i].JNull? {
          rgb := rgb + [AsInt(cs[i])];
        }
        i := i + 1;
      }
      assert cs[..|cs|] == cs;
    }
  }

  /** A box under the camelCase key: the area is read from "areaPx" only. */
  function CamelBox(bb: Json): BoundingBox
  {
    BoundingBox(IntField(bb, "x"), IntField(bb, "y"), IntField(bb, "width"), IntField(bb, "height"),
                IntField(bb, "areaPx"))
  }

  /** A box under the snake_case key: the area is read from "area_px", or
      from "areaPx" when that is absent or null. */
  function SnakeBox(bb: Json): BoundingBox
  {
    BoundingBox(IntField(bb, "x"), IntField(bb, "y"), IntField(bb, "width"), IntField(bb, "height"),
                if IntField(bb, "area_px").Some? then IntField(bb, "area_px") else IntField(bb, "areaPx"))
  }

  /** The box of a region entry: "boundingBox" when present, else "bounding_box". */
  function BoxOf(fr: Json): Option<BoundingBox>
  {
    match Present(fr, "boundingBox")
    case Some(bb) => Some(CamelBox(bb))
    case None =>
      match Present(fr, "bounding_box")
      case Some(bb) => Some(SnakeBox(bb))
      case None => None
  }

  function CentroidOf(fr: Json): Option<Centroid>
  {
    match Present(fr, "centroid")
    case Some(c) => Some(Centroid(IntField(c, "x"), IntField(c, "y")))
    case None => None
  }

  /** The fault region a detector entry describes, attached to image `imageId`. */
  function Normalise(fr: Json, imageId: nat): (r: RegionRow)
    ensures r.image == Some(imageId) && r.colorRgb == Some(ColorRgbOf(fr))
    // each attribute is null exactly when its key is absent or null
    ensures r.regionId.Some? <==> Present(fr, "id").Some?
    ensures r.faultType.Some? <==> Present(fr, "type").Some?
    ensures r.dominantColor.Some? <==> Present(fr, "dominant_color").Some?
    ensures r.boundingBox.Some? <==> Present(fr, "boundingBox").Some? || Present(fr, "bounding_box").Some?
    ensures r.centroid.Some? <==> Present(fr, "centroid").Some?
    ensures r.aspectRatio.Some? <==> Present(fr, "aspect_ratio").Some?
    ensures r.elongated.Some? <==> Present(fr, "elongated").Some?
    ensures r.connectedToWire.Some? <==> Present(fr, "connected_to_wire").Some?
    ensures r.tag.Some? <==> Present(fr, "tag").Some?
    ensures r.confidence.Some? <==> Present(fr, "confidence").Some?
    // a detected region carries no annotation trail
    ensures r.dbId.None? && r.comment.None? && r.isManual.None? && r.isDeleted.None? && r.deletedAt.None?
    ensures r.createdAt.None? && r.createdBy.None? && r.lastModifiedAt.None? && r.lastModifiedBy.None?
  {
    BlankRow.(
      regionId := IntField(fr, "id"),
      faultType := TextField(fr, "type"),
      dominantColor := TextField(fr, "dominant_color"),
      colorRgb := Some(ColorRgbOf(fr)),
      boundingBox := BoxOf(fr),
      centroid := CentroidOf(fr),
      aspectRatio := RealField(fr, "aspect_ratio"),
      elongated := BoolField(fr, "elongated"),
      connectedToWire := BoolField(fr, "connected_to_wire"),
      tag := TextField(fr, "tag"),
      confidence := RealField(fr, "confidence"),
      image := Some(imageId))
  }

  /** The loop body of the ingestion: a new entity filled through its setters. */
  method ReadRegion(fr: Json, imageId: nat) returns (region: FaultRegion)
    ensures fresh(region)
    ensures region.Data() == Normalise(fr, imageId)
  {
    region := new FaultRegion();
    region.SetRegionId(IntField(fr, "id"));
    region.SetType(TextField(fr, "type"));
    region.SetDominantColor(TextField(fr, "dominant_color"));
    var rgb := ReadColorRgb(fr);
    region.SetColorRgb(Some(rgb));
    var box := BoxOf(fr);
    if box.Some? {
      region.SetBoundingBox(box);
    }
    var centroid := CentroidOf(fr);
    if centroid.Some? {
      region.SetCentroid(centroid);
    }
    region.SetAspectRatio(RealField(fr, "aspect_ratio"));
    region.SetElongated(BoolField(fr, "elongated"));
    region.SetConnectedToWire(BoolField(fr, "connected_to_wire"));
    region.SetTag(TextField(fr, "tag"));
    region.SetConfidence(RealField(fr, "confidence"));
    region.SetImage(Some(imageId));
  }

  /** The camelCase box wins: adding a "bounding_box" to an entry that has a
      "boundingBox" changes nothing in the stored region. */
  lemma CamelSpellingWins(fields: seq<(string, Json)>, v: Json, imageId: nat)
    requires Present(JObject(fields), "boundingBox").Some?
    ensures Normalise(JObject(fields + [("bounding_box", v)]), imageId) == Normalise(JObject(fields), imageId)
  {
    var fr, fr' := JObject(fields), JObject(fields + [("bounding_box", v)]);
    PresentAfterAppend(fields, v, "boundingBox");
    PresentAfterAppend(fields, v, "centroid");
    PresentAfterAppend(fields, v, "color_rgb");
    PresentAfterAppend(fields, v, "id");
    PresentAfterAppend(fields, v, "type");
    PresentAfterAppend(fields, v, "dominant_color");
    PresentAfterAppend(fields, v, "tag");
    PresentAfterAppend(fields, v, "aspect_ratio");
    PresentAfterAppend(fields, v, "confidence");
    PresentAfterAppend(fields, v, "elongated");
    PresentAfterAppend(fields, v, "connected_to_wire");
    assert BoxOf(fr') == BoxOf(fr);
  }

  lemma PresentAfterAppend(fields: seq<(string, Json)>, v: Json, key: string)
    requires key != "bounding_box"
    ensures Present(JObject(fields + [("bounding_box", v)]), key) == Present(JObject(fields), key)
  {
    LookupAppend(fields, "bounding_box", v, key);
  }

  /** The snake_case box reads "area_px" in preference to "areaPx". */
  lemma SnakeAreaPrecedence(fields: seq<(string, Json)>, a: int, b: int)
    requires fields == [("areaPx", JInt(b)), ("area_px", JInt(a))]
    ensures SnakeBox(JObject(fields)).areaPx == Some(a)
    ensures CamelBox(JObject(fields)).areaPx == Some(b)
  {
    assert Lookup(fields[1..], "area_px") == Some(JInt(a));
  }

  /** A box colour entry is kept when its value is an array of at least three elements. */
  predicate IsColorTriple(v: Json)
  {
    v.JArray? && |v.items| >= 3
  }

  /** `a + "," + b + "," + c` of the first three elements. */
  function RgbText(v: Json): string
    requires IsColorTriple(v)
  {
    Text.IntText(AsInt(v.items[0])) + "," + Text.IntText(AsInt(v.items[1])) + "," + Text.IntText(AsInt(v.items[2]))
  }

  /** The stored colour splits back into the three numbers it was built from,
      so two entries store the same text only when their colours agree. */
  lemma RgbTextSplits(v: Json)
    requires IsColorTriple(v)
    ensures Text.Split(RgbText(v), ',')
         == [Text.IntText(AsInt(v.items[0])), Text.IntText(AsInt(v.items[1])), Text.IntText(AsInt(v.items[2]))]
  {
    var a, b, c := Text.IntText(AsInt(v.items[0])), Text.IntText(AsInt(v.items[1])), Text.IntText(AsInt(v.items[2]));
    Text.IntTextChars(AsInt(v.items[0]), ',');
    Text.IntTextChars(AsInt(v.items[1]), ',');
    Text.IntTextChars(AsInt(v.items[2]), ',');
    Text.SplitWhole(c, ',');
    Text.SplitAt(b, c, ',');
    assert b + [','] + c == b + "," + c;
    Text.SplitAt(a, b + "," + c, ',');
    assert a + [','] + (b + "," + c) == RgbText(v);
  }

  lemma RgbTextInjective(v: Json, w: Json)
    requires IsColorTriple(v) && IsColorTriple(w)
    requires RgbText(v) == RgbText(w)
    ensures AsInt(v.items[0]) == AsInt(w.items[0])
    ensures AsInt(v.items[1]) == AsInt(w.items[1])
    ensures AsInt(v.items[2]) == AsInt(w.items[2])
  {
    RgbTextSplits(v);
    RgbTextSplits(w);
    Text.IntTextInjective(AsInt(v.items[0]), AsInt(w.items[0]));
    Text.IntTextInjective(AsInt(v.items[1]), AsInt(w.items[1]));
    Text.IntTextInjective(AsInt(v.items[2]), AsInt(w.items[2]));
  }

  /** The colour entries among the given field names. */
  function BoxColorsOver(bc: Json, keys: set<string>): map<string, string>
  {
    map key | key in keys && Get(bc, key).Some? && IsColorTriple(Get(bc, key).value) :: RgbText(Get(bc, key).value)
  }

  /** The "box_colors" map as stored. */
  function BoxColors(bc: Json): map<string, string>
  {
    BoxColorsOver(bc, FieldNames(bc))
  }

  /** A label keeps its colour exactly when its value is an array of at
      least three elements, stored as the text of the first three. */
  lemma BoxColorsKept(bc: Json, key: string)
    ensures key in BoxColors(bc) <==> Get(bc, key).Some? && IsColorTriple(Get(bc, key).value)
    ensures key in BoxColors(bc) ==> BoxColors(bc)[key] == RgbText(Get(bc, key).value)
  {
    if bc.JObject? {
      FieldNamesLookup(bc, key);
    }
  }

  function KeysBefore(bc: Json, i: nat): set<string>
    requires bc.JObject? && i <= |bc.fields|
  {
    set k | 0 <= k < i :: bc.fields[k].0
  }

  /** Visiting one more field name adds its entry when it qualifies. */
  lemma BoxColorsOverStep(bc: Json, keys: set<string>, key: string)
    ensures BoxColorsOver(bc, keys + {key})
         == if Get(bc, key).Some? && IsColorTriple(Get(bc, key).value)
            then BoxColorsOver(bc, keys)[key := RgbText(Get(bc, key).value)]
            else BoxColorsOver(bc, keys)
  {
  }

  lemma KeysBeforeStep(bc: Json, i: nat)
    requires bc.JObject? && i < |bc.fields|
    ensures KeysBefore(bc, i + 1) == KeysBefore(bc, i) + {bc.fields[i].0}
  {
  }

  /** One more iteration of the loop over the field names, in terms of the field visited. */
  lemma BoxColorsBeforeStep(bc: Json, i: nat)
    requires bc.JObject? && i < |bc.fields|
    ensures var key := bc.fields[i].0;
      BoxColorsOver(bc, KeysBefore(bc, i + 1))
      == if Get(bc, key).Some? && IsColorTriple(Get(bc, key).value)
         then BoxColorsOver(bc, KeysBefore(bc, i))[key := RgbText(Get(bc, key).value)]
         else BoxColorsOver(bc, KeysBefore(bc, i))
  {
    KeysBeforeStep(bc, i);
    BoxColorsOverStep(bc, KeysBefore(bc, i), bc.fields[i].0);
  }

  lemma KeysBeforeAll(bc: Json)
    requires bc.JObject?
    ensures KeysBefore(bc, |bc.fields|) == FieldNames(bc)
  {
  }

  /** The loop over the field names of "box_colors". */
  method ReadBoxColors(bc: Json) returns (m: map<string, string>)
    ensures m == BoxColors(bc)
  {
    m := map[];
    if !bc.JObject? {
      assert FieldNames(bc) == {};
      return;
    }
    var i := 0;
    while i < |bc.fields|
      invariant 0 <= i <= |bc.fields|
      invariant m == BoxColorsOver(bc, KeysBefore(bc, i))
    {
      var key := bc.fields[i].0;
      var val := Get(bc, key);
      BoxColorsBeforeStep(bc, i);
      if val.Some? && IsColorTriple(val.value) {
        m := m[key := RgbText(val.value)];
      }
      i := i + 1;
    }
    KeysBeforeAll(bc);
  }

  /** The display metadata a reply carries: present exactly when
      "display_metadata" is; the timestamp is read from the top level of
      the reply and left null when `parseTime` refuses it. */
  function MetadataOf(root: Json, parseTime: string -> Option<Time>): (dm: Option<DisplayMetadata>)
    ensures dm.Some? <==> Present(root, "display_metadata").Some?
    ensures dm.Some? && Present(root, "timestamp").None? ==> dm.value.timestamp.None?
    ensures dm.Some? && Present(Present(root, "display_metadata").value, "box_colors").None? ==>
      dm.value.boxColors == map[]
  {
    match Present(root, "display_metadata")
    case None => None
    case Some(node) =>
      var colors := match Present(node, "box_colors")
                    case Some(bc) => BoxColors(bc)
                    case None => map[];
      var ts := match Present(root, "timestamp")
                case Some(t) => parseTime(AsText(t))
                case None => None;
      Some(DisplayMetadata(colors, ts))
  }

  method ReadMetadata(root: Json, parseTime: string -> Option<Time>) returns (dm: Option<DisplayMetadata>)
    ensures dm == MetadataOf(root, parseTime)
  {
    var node := Present(root, "display_metadata");
    if node.None? {
      return None;
    }
    var colors := map[];
    var bc := Present(node.value, "box_colors");
    if bc.Some? {
      colors := ReadBoxColors(bc.value);
    }
    var ts := None;
    var t := Present(root, "timestamp");
    if t.Some? {
      ts := parseTime(AsText(t.value));
    }
    dm := Some(DisplayMetadata(colors, ts));
  }

  /** The entries iterated under "fault_regions" (nothing when the key is absent). */
  function RegionNodes(root: Json): seq<Json>
  {
    match Get(root, "fault_regions")
    case Some(v) => Children(v)
    case None => []
  }

  /** The row stored for entry `node` under key `k`. */
  function IngestedRow(node: Json, imageId: nat, k: nat): RegionRow
  {
    Persisted(Normalise(node, imageId).(dbId := Some(k)))
  }

  /** The rows stored for `nodes`, under consecutive keys from `base`. */
  function IngestedRegions(nodes: seq<Json>, imageId: nat, base: nat): map<nat, RegionRow>
    decreases |nodes|
  {
    if nodes == [] then map[]
    else
      var n := |nodes| - 1;
      IngestedRegions(nodes[..n], imageId, base)[base + n := IngestedRow(nodes[n], imageId, base + n)]
  }

  /** Entry `i` is stored under key `base + i`, and no other key is used. */
  lemma {:induction false} IngestedRegionsKeys(nodes: seq<Json>, imageId: nat, base: nat)
    ensures forall k :: k in IngestedRegions(nodes, imageId, base) <==> base <= k < base + |nodes|
    ensures forall i :: 0 <= i < |nodes| ==>
      IngestedRegions(nodes, imageId, base)[base + i] == IngestedRow(nodes[i], imageId, base + i)
    decreases |nodes|
  {
    if nodes != [] {
      var n := |nodes| - 1;
      IngestedRegionsKeys(nodes[..n], imageId, base);
      assert forall i :: 0 <= i < n ==> nodes[..n][i] == nodes[i];
    }
  }

  /** Every stored row belongs to the uploaded image, carries its own key, and
      is neither manual, edited nor deleted. */
  lemma IngestedRowsUnedited(nodes: seq<Json>, imageId: nat, base: nat, k: nat)
    requires k in IngestedRegions(nodes, imageId, base)
    ensures var r := IngestedRegions(nodes, imageId, base)[k];
      && r.image == Some(imageId) && r.dbId == Some(k)
      && r.isManual.None? && r.isDeleted.None? && r.lastModifiedAt.None?
  {
    IngestedRegionsKeys(nodes, imageId, base);
    var i := k - base;
    assert base + i == k;
  }

  /** Storing one more entry adds one row under the next key. */
  lemma IngestedRegionsStep(nodes: seq<Json>, i: nat, imageId: nat, base: nat)
    requires i < |nodes|
    ensures IngestedRegions(nodes[..i + 1], imageId, base)
         == IngestedRegions(nodes[..i], imageId, base)[base + i := IngestedRow(nodes[i], imageId, base + i)]
  {
    assert nodes[..i + 1][..i] == nodes[..i];
    assert nodes[..i + 1][i] == nodes[i];
  }

  /** Storing entry `i` on top of the rows already stored for the entries before it. */
  lemma SavedStep(start: map<nat, RegionRow>, nodes: seq<Json>, i: nat, imageId: nat, base: nat, key: nat)
    requires i < |nodes| && key == base + i
    ensures (start + IngestedRegions(nodes[..i], imageId, base))[key := IngestedRow(nodes[i], imageId, key)]
         == start + IngestedRegions(nodes[..i + 1], imageId, base)
  {
    IngestedRegionsStep(nodes, i, imageId, base);
  }

  /** One entry of "fault_regions", normalised and stored under the next key. */
  method SaveRegion(db: Db, imageId: nat, node: Json) returns (id: nat)
    requires db.Valid() && imageId in db.images
    modifies db`regions, db`nextId
    ensures db.Valid()
    ensures id == old(db.nextId) && db.nextId == id + 1
    ensures db.regions == old(db.regions)[id := IngestedRow(node, imageId, id)]
    ensures db.Snapshot() == old(db.Snapshot()).(regions := db.regions, nextId := db.nextId)
  {
    var region := ReadRegion(node, imageId);
    id := db.InsertRegion(region.Data());
  }

  /** The loop that stores one region per entry, in order. */
  method SaveRegions(db: Db, imageId: nat, nodes: seq<Json>)
    requires db.Valid() && imageId in db.images
    modifies db`regions, db`nextId
    ensures db.Valid()
    ensures db.nextId == old(db.nextId) + |nodes|
    ensures db.regions == old(db.regions) + IngestedRegions(nodes, imageId, old(db.nextId))
    ensures db.Snapshot() == old(db.Snapshot()).(regions := db.regions, nextId := db.nextId)
  {
    var base := db.nextId;
    ghost var start: map<nat, RegionRow> := db.regions;
    assert nodes[..0] == [];
    for i := 0 to |nodes|
      invariant db.Valid() && imageId in db.images
      invariant db.nextId == base + i
      invariant db.regions == start + IngestedRegions(nodes[..i], imageId, base)
      invariant db.Snapshot() == old(db.Snapshot()).(regions := db.regions, nextId := db.nextId)
    {
      var id := SaveRegion(db, imageId, nodes[i]);
      SavedStep(start, nodes, i, imageId, base, id);
    }
    assert nodes[..|nodes|] == nodes;
  }

  /** The store after a reply was read: the regions, then the metadata, then
      (when `keepOriginal`) the reply text as the image's original result. */
  function Ingested(t: Tables, imageId: nat, root: Json, reply: string, parseTime: string -> Option<Time>,
                    now: Time, keepOriginal: bool): Tables
  {
    var dm := MetadataOf(root, parseTime);
    t.(regions := t.regions + IngestedRegions(RegionNodes(root), imageId, t.nextId),
       nextId := t.nextId + |RegionNodes(root)|,
       metadata := if dm.Some? then t.metadata[imageId := dm.value] else t.metadata,
       originals := if keepOriginal then t.originals[imageId := OriginalResult(reply, now)] else t.originals)
  }

  /** The detection step: the store afterwards and the parsed reply returned
      to the caller. A failed call (`reply` None) or a reply that does not
      parse changes nothing and returns nothing. */
  function AfterDetection(t: Tables, imageId: nat, reply: Option<string>, parse: string -> Option<Json>,
                          parseTime: string -> Option<Time>, now: Time, keepOriginal: bool): (Tables, Option<Json>)
  {
    if reply.None? then (t, None)
    else match parse(reply.value)
      case None => (t, None)
      case Some(root) => (Ingested(t, imageId, root, reply.value, parseTime, now, keepOriginal), Some(root))
  }

  /** The display metadata of a parsed reply, saved when the reply carries it. */
  method SaveMetadata(db: Db, imageId: nat, root: Json, parseTime: string -> Option<Time>)
    requires db.Valid() && imageId in db.images && imageId !in db.metadata
    modifies db`metadata
    ensures db.Valid()
    ensures var dm := MetadataOf(root, parseTime);
      db.metadata == if dm.Some? then old(db.metadata)[imageId := dm.value] else old(db.metadata)
    ensures db.Snapshot() == old(db.Snapshot()).(metadata := db.metadata)
  {
    var dm := ReadMetadata(root, parseTime);
    if dm.Some? {
      db.InsertMetadata(imageId, dm.value);
    }
  }

  /** The reply text kept as the image's original result. */
  method SaveOriginal(db: Db, imageId: nat, reply: string, now: Time)
    requires db.Valid() && imageId in db.images && imageId !in db.originals
    modifies db`originals
    ensures db.Valid()
    ensures db.originals == old(db.originals)[imageId := OriginalResult(reply, now)]
    ensures db.Snapshot() == old(db.Snapshot()).(originals := db.originals)
  {
    var original := new OriginalAnomalyResult(imageId, reply);
    var ok := db.InsertOriginal(original, now);
  }

  /** Everything stored from a parsed reply. */
  method SaveReply(db: Db, imageId: nat, root: Json, reply: string, parseTime: string -> Option<Time>,
                   now: Time, keepOriginal: bool)
    requires db.Valid() && imageId in db.images && imageId !in db.metadata && imageId !in db.originals
    modifies db`regions, db`nextId, db`metadata, db`originals
    ensures db.Valid()
    ensures db.Snapshot() == Ingested(old(db.Snapshot()), imageId, root, reply, parseTime, now, keepOriginal)
  {
    ghost var t := db.Snapshot();
    SaveRegions(db, imageId, RegionNodes(root));
    SaveMetadata(db, imageId, root, parseTime);
    if keepOriginal {
      SaveOriginal(db, imageId, reply, now);
    }
  }

  /** The body of the `try` block after the detector call. */
  method Ingest(db: Db, imageId: nat, reply: Option<string>, parse: string -> Option<Json>,
                parseTime: string -> Option<Time>, now: Time, keepOriginal: bool) returns (result: Option<Json>)
    requires db.Valid() && imageId in db.images && imageId !in db.metadata && imageId !in db.originals
    modifies db`regions, db`nextId, db`metadata, db`originals
    ensures db.Valid()
    ensures (db.Snapshot(), result) == AfterDetection(old(db.Snapshot()), imageId, reply, parse, parseTime, now, keepOriginal)
  {
    if reply.None? {
      return None;
    }
    var root := parse(reply.value);
    if root.None? {
      return None;
    }
    SaveReply(db, imageId, root.value, reply.value, parseTime, now, keepOriginal);
    result := root;
  }

  /** Detection touches only the regions, the id counter, the metadata and the
      original results, and keeping the original result changes nothing else. */
  lemma AfterDetectionFrame(t: Tables, imageId: nat, reply: Option<string>, parse: string -> Option<Json>,
                            parseTime: string -> Option<Time>, now: Time)
    ensures var (kept, r1) := AfterDetection(t, imageId, reply, parse, parseTime, now, true);
      var (plain, r2) := AfterDetection(t, imageId, reply, parse, parseTime, now, false);
      && r1 == r2
      && plain == t.(regions := plain.regions, nextId := plain.nextId, metadata := plain.metadata)
      && kept == plain.(originals := kept.originals)
  {
    if reply.Some? && parse(reply.value).Some? {
      var root := parse(reply.value).value;
      var kept := Ingested(t, imageId, root, reply.value, parseTime, now, true);
      var plain := Ingested(t, imageId, root, reply.value, parseTime, now, false);
      assert plain.originals == t.originals;
      assert kept == plain.(originals := kept.originals);
    }
  }
}
