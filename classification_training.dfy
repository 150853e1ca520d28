/** Training bookkeeping: the checks before the classification server is
    called, the region list it is sent, and the swap of the active detector
    configuration once it replies. The whole operation is one transaction:
    when any step fails, no configuration changes. */
module ClassificationTraining {
  import opened Common
  import opened Json
  import opened Entities
  import opened FaultRegionModel
  import opened Database
  import opened ErrorAnnotationService
  import opened ImageErrorAnnotationController
  import Seqs
  import Text
  import LocalDateTime

  // ---------------------------------------------------------------------
  // The anomaly_results document

  /** The keys of a region's entry. */
  datatype Key =
    | IdKey | TypeKey | DominantColorKey | ColorRgbKey | BoundingBoxKey | CentroidKey
    | AspectRatioKey | ElongatedKey | ConnectedToWireKey | TagKey | ConfidenceKey

  /** The key as the document spells it. */
  function KeyName(k: Key): string
  {
    match k
    case IdKey => "id"
    case TypeKey => "type"
    case DominantColorKey => "dominant_color"
    case ColorRgbKey => "color_rgb"
    case BoundingBoxKey => "boundingBox"
    case CentroidKey => "centroid"
    case AspectRatioKey => "aspect_ratio"
    case ElongatedKey => "elongated"
    case ConnectedToWireKey => "connected_to_wire"
    case TagKey => "tag"
    case ConfidenceKey => "confidence"
  }

  const AllKeys: set<Key> :=
    {IdKey, TypeKey, DominantColorKey, ColorRgbKey, BoundingBoxKey, CentroidKey, AspectRatioKey, ElongatedKey,
     ConnectedToWireKey, TagKey, ConfidenceKey}

  /** A value in a region's map: a scalar, or a nested map (the box and the
      centroid). The maps are hash maps, so their key order is not part of
      the value. */
  datatype Field = Scalar(value: Json) | Nested(fields: map<string, Json>)

  function IntOrNull(v: Option<int>): Json
  {
    if v.Some? then JInt(v.value) else JNull
  }

  function IntArray(c: seq<int>): (j: Json)
    ensures j.JArray? && |j.items| == |c|
  {
    JArray(seq(|c|, i requires 0 <= i < |c| => JInt(c[i])))
  }

  /** What the entry holds under `k`: nothing when the field is null. */
  function EntryField(r: RegionRow, k: Key): Option<Field>
  {
    match k
    case IdKey => if r.regionId.Some? then Some(Scalar(JInt(r.regionId.value))) else None
    case TypeKey => if r.faultType.Some? then Some(Scalar(JString(r.faultType.value))) else None
    case DominantColorKey => if r.dominantColor.Some? then Some(Scalar(JString(r.dominantColor.value))) else None
    case ColorRgbKey => if r.colorRgb.Some? then Some(Scalar(IntArray(r.colorRgb.value))) else None
    case BoundingBoxKey =>
      if r.boundingBox.Some? then
        var b := r.boundingBox.value;
        Some(Nested(map["x" := IntOrNull(b.x), "y" := IntOrNull(b.y), "width" := IntOrNull(b.width),
                        "height" := IntOrNull(b.height), "areaPx" := IntOrNull(b.areaPx)]))
      else None
    case CentroidKey =>
      if r.centroid.Some? then Some(Nested(map["x" := IntOrNull(r.centroid.value.x), "y" := IntOrNull(r.centroid.value.y)]))
      else None
    case AspectRatioKey => if r.aspectRatio.Some? then Some(Scalar(JReal(r.aspectRatio.value))) else None
    case ElongatedKey => if r.elongated.Some? then Some(Scalar(JBool(r.elongated.value))) else None
    case ConnectedToWireKey => if r.connectedToWire.Some? then Some(Scalar(JBool(r.connectedToWire.value))) else None
    case TagKey => if r.tag.Some? then Some(Scalar(JString(r.tag.value))) else None
    case ConfidenceKey => if r.confidence.Some? then Some(Scalar(JReal(r.confidence.value))) else None
  }

  /** The entry of one region: a scalar key only when its field is non-null,
      and the box and the centroid with all their keys when they exist. */
  function RegionEntry(r: RegionRow): (m: map<Key, Field>)
    ensures IdKey in m <==> r.regionId.Some?
    ensures TypeKey in m <==> r.faultType.Some?
    ensures DominantColorKey in m <==> r.dominantColor.Some?
    ensures ColorRgbKey in m <==> r.colorRgb.Some?
    ensures BoundingBoxKey in m <==> r.boundingBox.Some?
    ensures CentroidKey in m <==> r.centroid.Some?
    ensures AspectRatioKey in m <==> r.aspectRatio.Some?
    ensures ElongatedKey in m <==> r.elongated.Some?
    ensures ConnectedToWireKey in m <==> r.connectedToWire.Some?
    ensures TagKey in m <==> r.tag.Some?
    ensures ConfidenceKey in m <==> r.confidence.Some?
  {
    map k | k in AllKeys && EntryField(r, k).Some? :: EntryField(r, k).value
  }

  /** No scalar is written as null, and a box or a centroid carries all of
      its keys, null or not. */
  lemma EntryShape(r: RegionRow)
    ensures var m := RegionEntry(r);
      && (forall k :: k in m && m[k].Scalar? ==> !m[k].value.JNull?)
      && (BoundingBoxKey in m ==>
            m[BoundingBoxKey].Nested? && m[BoundingBoxKey].fields.Keys == {"x", "y", "width", "height", "areaPx"})
      && (CentroidKey in m ==> m[CentroidKey].Nested? && m[CentroidKey].fields.Keys == {"x", "y"})
  {
  }

  /** The region fields the document carries; every other field blank. */
  function Exposed(r: RegionRow): RegionRow
  {
    BlankRow.(regionId := r.regionId, faultType := r.faultType, dominantColor := r.dominantColor,
              colorRgb := r.colorRgb, boundingBox := r.boundingBox, centroid := r.centroid,
              aspectRatio := r.aspectRatio, elongated := r.elongated, connectedToWire := r.connectedToWire,
              tag := r.tag, confidence := r.confidence)
  }

  // Reading an entry back, as the server sees it.

  function IntOf(j: Json): Option<int>
  {
    if j.JInt? then Some(j.i) else None
  }

  function NestedInt(m: map<Key, Field>, outer: Key, inner: string): Option<int>
  {
    if outer in m && m[outer].Nested? && inner in m[outer].fields then IntOf(m[outer].fields[inner]) else None
  }

  function ScalarOf(m: map<Key, Field>, k: Key): Json
  {
    if k in m && m[k].Scalar? then m[k].value else JNull
  }

  function StringOf(m: map<Key, Field>, k: Key): Option<string>
  {
    if ScalarOf(m, k).JString? then Some(ScalarOf(m, k).s) else None
  }

  function RealOf(m: map<Key, Field>, k: Key): Option<real>
  {
    if ScalarOf(m, k).JReal? then Some(ScalarOf(m, k).r) else None
  }

  function BoolOf(m: map<Key, Field>, k: Key): Option<bool>
  {
    if ScalarOf(m, k).JBool? then Some(ScalarOf(m, k).b) else None
  }

  function IntsOf(m: map<Key, Field>, k: Key): Option<seq<int>>
  {
    var v := ScalarOf(m, k);
    if v.JArray? then Some(seq(|v.items|, i requires 0 <= i < |v.items| => AsInt(v.items[i]))) else None
  }

  /** The region an entry describes. */
  function DecodeEntry(m: map<Key, Field>): RegionRow
  {
    BlankRow.(
      regionId := IntOf(ScalarOf(m, IdKey)),
      faultType := StringOf(m, TypeKey),
      dominantColor := StringOf(m, DominantColorKey),
      colorRgb := IntsOf(m, ColorRgbKey),
      boundingBox := if BoundingBoxKey in m then
                       Some(BoundingBox(NestedInt(m, BoundingBoxKey, "x"), NestedInt(m, BoundingBoxKey, "y"),
                                        NestedInt(m, BoundingBoxKey, "width"), NestedInt(m, BoundingBoxKey, "height"),
                                        NestedInt(m, BoundingBoxKey, "areaPx")))
                     else None,
      centroid := if CentroidKey in m then Some(Centroid(NestedInt(m, CentroidKey, "x"), NestedInt(m, CentroidKey, "y")))
                  else None,
      aspectRatio := RealOf(m, AspectRatioKey),
      elongated := BoolOf(m, ElongatedKey),
      connectedToWire := BoolOf(m, ConnectedToWireKey),
      tag := StringOf(m, TagKey),
      confidence := RealOf(m, ConfidenceKey))
  }

  /** The text fields read back as they were. */
  lemma EntryTextsRoundTrip(r: RegionRow)
    ensures var d := DecodeEntry(RegionEntry(r));
      && d.regionId == r.regionId && d.faultType == r.faultType && d.dominantColor == r.dominantColor
      && d.tag == r.tag
  {
  }

  /** The colour, the measures and the flags read back as they were. */
  lemma EntryValuesRoundTrip(r: RegionRow)
    ensures var d := DecodeEntry(RegionEntry(r));
      && d.colorRgb == r.colorRgb && d.aspectRatio == r.aspectRatio && d.elongated == r.elongated
      && d.connectedToWire == r.connectedToWire && d.confidence == r.confidence
  {
    var m := RegionEntry(r);
    if r.colorRgb.Some? {
      var c := r.colorRgb.value;
      assert m[ColorRgbKey] == Scalar(IntArray(c));
      assert IntsOf(m, ColorRgbKey).value == c;
    }
  }

  /** The box and the centroid read back as they were. */
  lemma EntryNestedRoundTrip(r: RegionRow)
    ensures var d := DecodeEntry(RegionEntry(r));
      d.boundingBox == r.boundingBox && d.centroid == r.centroid
  {
  }

  /** The entry loses none of the fields it carries: reading it back gives
      the region's exposed fields, nulls included. */
  lemma EntryRoundTrip(r: RegionRow)
    ensures DecodeEntry(RegionEntry(r)) == Exposed(r)
  {
    EntryTextsRoundTrip(r);
    EntryValuesRoundTrip(r);
    EntryNestedRoundTrip(r);
  }

  /** `createAnomalyResultsJson`: one entry per region, in the regions' order.
      The entries are the value of the document's single key "fault_regions". */
  method AnomalyResults(regions: seq<RegionRow>) returns (out: seq<map<Key, Field>>)
    ensures |out| == |regions|
    ensures forall i :: 0 <= i < |regions| ==> out[i] == RegionEntry(regions[i])
  {
    out := [];
    for i := 0 to |regions|
      invariant |out| == i
      invariant forall j :: 0 <= j < i ==> out[j] == RegionEntry(regions[j])
    {
      out := out + [RegionEntry(regions[i])];
    }
  }

  /** Every region sent can be read back from its entry. */
  lemma AnomalyResultsRoundTrip(regions: seq<RegionRow>, out: seq<map<Key, Field>>)
    requires |out| == |regions| && forall i :: 0 <= i < |regions| ==> out[i] == RegionEntry(regions[i])
    ensures forall i :: 0 <= i < |out| ==> DecodeEntry(out[i]) == Exposed(regions[i])
  {
    forall i | 0 <= i < |out|
      ensures DecodeEntry(out[i]) == Exposed(regions[i])
    {
      EntryRoundTrip(regions[i]);
    }
  }

  // ---------------------------------------------------------------------
  // The checks before the call

  /** `isDeleted == null || !isDeleted`. */
  function NotDeleted(): RegionRow -> bool
  {
    (r: RegionRow) => !r.SoftDeleted()
  }

  /** The keys of the active configurations in `[lo, hi)`, ascending. */
  function ActiveKeys(configs: map<nat, Config>, lo: nat, hi: nat): (ks: seq<nat>)
    ensures forall k :: k in ks <==> lo <= k < hi && k in configs && configs[k].isActive
    ensures forall i :: 0 <= i < |ks| ==> lo <= ks[i]
    ensures forall i, j :: 0 <= i < j < |ks| ==> ks[i] < ks[j]
    decreases hi - lo
  {
    if lo >= hi then []
    else if lo in configs && configs[lo].isActive then [lo] + ActiveKeys(configs, lo + 1, hi)
    else ActiveKeys(configs, lo + 1, hi)
  }

  predicate AtMostOneActive(configs: map<nat, Config>)
  {
    forall a, b :: a in configs && b in configs && configs[a].isActive && configs[b].isActive ==> a == b
  }

  /** The configuration `getActiveConfig` creates when none is active. */
  const DefaultConfig := Config("default", Some("Default configuration for anomaly detection"), map[], true)

  /** `getActiveConfig`: the key and value of the active configuration, or
      none when the default must be created. The lookup expects one row at
      most and fails with a 500 on two; creating the default fails when its
      name is taken. */
  function ActiveConfig(t: Tables): (r: Result<(Option<nat>, Config)>)
    requires KeysBelow(t.configs, t.nextId)
    ensures r.Ok? <==>
      (AtMostOneActive(t.configs)
       && ((forall k :: k in t.configs ==> !t.configs[k].isActive) ==> ConfigAcceptable(t.configs, t.nextId, DefaultConfig)))
    ensures r.Err? ==> r.error == Internal
    ensures r.Ok? && r.value.0.Some? ==>
      r.value.0.value in t.configs && t.configs[r.value.0.value].isActive
      && r.value.1 == t.configs[r.value.0.value]
    ensures r.Ok? && r.value.0.None? ==>
      (forall k :: k in t.configs ==> !t.configs[k].isActive) && r.value.1 == DefaultConfig
      && ConfigAcceptable(t.configs, t.nextId, DefaultConfig)
  {
    var ks := ActiveKeys(t.configs, 0, t.nextId);
    if |ks| > 1 then
      assert ks[0] != ks[1] && ks[0] in ks && ks[1] in ks;
      Err(Internal)
    else if |ks| == 1 then
      assert ks[0] in ks;
      Ok((Some(ks[0]), t.configs[ks[0]]))
    else if ConfigAcceptable(t.configs, t.nextId, DefaultConfig) then Ok((None, DefaultConfig))
    else Err(Internal)
  }

  /** What is sent to the server with the two image files. */
  datatype Inputs = Inputs(
    baseline: Image, maintenance: Image, current: Option<nat>, config: Config,
    regions: seq<RegionRow>, original: string)

  /** The checks of `trainModel` in their order, and what they gather. */
  function TrainingInputs(t: Tables, transformerId: nat, baselineImageId: nat, maintenanceImageId: nat)
    : (r: Result<Inputs>)
    requires KeysBelow(t.configs, t.nextId)
    ensures baselineImageId !in t.images ==> r == Err(NotFound)
    ensures baselineImageId in t.images && t.images[baselineImageId].transformer != transformerId ==>
      r == Err(BadRequest)
    ensures (baselineImageId in t.images && t.images[baselineImageId].transformer == transformerId
             && maintenanceImageId !in t.images) ==> r == Err(NotFound)
    ensures (baselineImageId in t.images && t.images[baselineImageId].transformer == transformerId
             && maintenanceImageId in t.images && t.images[maintenanceImageId].transformer != transformerId) ==>
      r == Err(BadRequest)
    // a failing configuration lookup (two active rows, or no insertable default) is a 500
    ensures (baselineImageId in t.images && t.images[baselineImageId].transformer == transformerId
             && maintenanceImageId in t.images && t.images[maintenanceImageId].transformer == transformerId
             && ActiveConfig(t).Err?) ==> r == Err(Internal)
    ensures r.Ok? ==>
      && r.value.baseline == t.images[baselineImageId] && r.value.baseline.transformer == transformerId
      && r.value.maintenance == t.images[maintenanceImageId] && r.value.maintenance.transformer == transformerId
      && r.value.regions == Seqs.Filter(ByRegionId(t.regions, t.nextId, maintenanceImageId), NotDeleted())
      // only regions that are not soft-deleted are sent, and at least one is
      && r.value.regions != [] && (forall x :: x in r.value.regions ==> !x.SoftDeleted())
      && maintenanceImageId in t.originals && r.value.original == t.originals[maintenanceImageId].anomalyJson
      && ActiveConfig(t) == Ok((r.value.current, r.value.config))
    ensures (ActiveConfig(t).Ok? && baselineImageId in t.images && maintenanceImageId in t.images
             && t.images[baselineImageId].transformer == transformerId
             && t.images[maintenanceImageId].transformer == transformerId) ==>
      (r == Err(BadRequest) <==>
         Seqs.Filter(ByRegionId(t.regions, t.nextId, maintenanceImageId), NotDeleted()) == []
         || maintenanceImageId !in t.originals)
  {
    if baselineImageId !in t.images then Err(NotFound)
    else if t.images[baselineImageId].transformer != transformerId then Err(BadRequest)
    else if maintenanceImageId !in t.images then Err(NotFound)
    else if t.images[maintenanceImageId].transformer != transformerId then Err(BadRequest)
    else
      var active := ActiveConfig(t);
      if active.Err? then Err(active.error)
      else
        var all := ByRegionId(t.regions, t.nextId, maintenanceImageId);
        if all == [] then Err(BadRequest)
        else
          var kept := Seqs.Filter(all, NotDeleted());
          if kept == [] then Err(BadRequest)
          else if maintenanceImageId !in t.originals then Err(BadRequest)
          else Ok(Inputs(t.images[baselineImageId], t.images[maintenanceImageId], active.value.0, active.value.1,
                         kept, t.originals[maintenanceImageId].anomalyJson))
  }

  /** An image whose every region is soft-deleted cannot be trained on. */
  lemma AllDeletedRefused(t: Tables, transformerId: nat, baselineImageId: nat, maintenanceImageId: nat)
    requires KeysBelow(t.configs, t.nextId)
    requires ActiveConfig(t).Ok? && baselineImageId in t.images && maintenanceImageId in t.images
    requires t.images[baselineImageId].transformer == transformerId
    requires t.images[maintenanceImageId].transformer == transformerId
    requires forall k :: k in t.regions && t.regions[k].image == Some(maintenanceImageId) ==> t.regions[k].SoftDeleted()
    ensures TrainingInputs(t, transformerId, baselineImageId, maintenanceImageId) == Err(BadRequest)
  {
    var all := ByRegionId(t.regions, t.nextId, maintenanceImageId);
    ByRegionIdCorrect(t.regions, t.nextId, maintenanceImageId);
    forall x | x in all
      ensures x.SoftDeleted()
    {
      assert x in ImageRegions(t.regions, t.nextId, maintenanceImageId);
      assert x in Rows(t.regions, 0, t.nextId);
      RowsMembers(t.regions, 0, t.nextId, x);
    }
    if Seqs.Filter(all, NotDeleted()) != [] {
      assert Seqs.Filter(all, NotDeleted())[0] in Seqs.Filter(all, NotDeleted());
    }
  }

  // ---------------------------------------------------------------------
  // The new configuration

  const IntKeys: set<string> :=
    {"delta_abs_min", "min_blob_area_px", "open_iters", "dilate_iters", "fault_red_min_pixels",
     "min_cluster_area_px", "sidebar_hue_span_deg", "sidebar_margin_px", "h_bins", "roi_s_min", "roi_v_min",
     "blue_h_lo", "blue_h_hi", "blue_s_min", "blue_v_min", "black_v_hi", "white_bg_S_max", "white_bg_V_min",
     "white_bg_exclude_near_warm_px"}

  const RealKeys: set<string> :=
    {"delta_k_sigma", "keep_component_min_ratio", "fault_red_ratio", "potential_yellow_ratio",
     "fullwire_hot_fraction", "elongated_aspect_ratio", "merge_close_frac", "sidebar_search_frac",
     "sidebar_min_width_frac", "sidebar_max_width_frac", "sidebar_min_valid_frac", "text_bottom_band_frac",
     "hist_distance_min", "red_bg_ratio_min_increase", "red_bg_min_abs", "white_bg_column_frac",
     "white_bg_row_frac"}

  const FlagKey := "mask_top_left_overlay"

  /** One parameter read from the reply: integers truncated, the flag as 1 or 0. */
  function ParameterValue(key: string, node: Json): real
  {
    if key in IntKeys then AsInt(node) as real
    else if key == FlagKey then (if AsBoolean(node) then 1.0 else 0.0)
    else AsDouble(node)
  }

  /** The parameters the reply's `updated_config` supplies; a parameter it
      does not name is absent (and keeps the entity's own default). */
  function TrainedParameters(node: Json): (ps: map<string, real>)
    ensures forall k :: k in ps <==> (k in IntKeys || k in RealKeys || k == FlagKey) && Get(node, k).Some?
  {
    map k | k in IntKeys + RealKeys + {FlagKey} && Get(node, k).Some? :: ParameterValue(k, Get(node, k).value)
  }

  /** As written: the clock's ISO text with ':' and 'T' replaced, cut to 19
      characters. The cut fails on a text shorter than that. */
  function TrainedNameAsWritten(stamp: string): (r: Result<string>)
    ensures r.Ok? <==> |stamp| >= 19
    ensures r.Err? ==> r.error == Internal
    ensures r.Ok? ==> |r.value| == 27 <= ConfigNameLength && r.value[..8] == "trained_"
  {
    var s := Swapped(stamp);
    if |s| < 19 then Err(Internal) else Ok("trained_" + s[..19])
  }

  /** At a whole minute the clock's text has no seconds, so the as-written
      name cannot be formed and training fails. */
  lemma WholeMinuteNameFails()
    ensures var d := LocalDateTime.DateTime(2025, 3, 14, 10, 20, 0, 0);
      LocalDateTime.Valid(d) && TrainedNameAsWritten(LocalDateTime.IsoString(d)).Err?
  {
  }

  /** The as-written name fails exactly at whole minutes. */
  lemma AsWrittenNameFailsIff(d: LocalDateTime.DateTime)
    requires LocalDateTime.Valid(d)
    ensures TrainedNameAsWritten(LocalDateTime.IsoString(d)).Err? <==> d.second == 0 && d.nano == 0
  {
  }

  /** The name the source evidently means: `trained_yyyy-MM-dd_HH-mm-ss`,
      with the seconds always written. */
  function TrainedName(d: LocalDateTime.DateTime): (name: string)
    requires LocalDateTime.Valid(d)
    ensures |name| == 27 <= ConfigNameLength
  {
    "trained_" + (LocalDateTime.Padded(d.year, 4) + "-" + LocalDateTime.Padded(d.month, 2) + "-"
                  + LocalDateTime.Padded(d.day, 2) + "_" + LocalDateTime.Padded(d.hour, 2) + "-"
                  + LocalDateTime.Padded(d.minute, 2) + "-" + LocalDateTime.Padded(d.second, 2))
  }

  /** The two replacements `trainModel` applies to the clock's text. */
  function Swapped(s: string): (r: string)
    ensures |r| == |s|
  {
    Text.ReplaceChar(Text.ReplaceChar(s, ':', '-'), 'T', '_')
  }

  /** The replacements work character by character. */
  lemma SwappedConcat(a: string, b: string)
    ensures Swapped(a + b) == Swapped(a) + Swapped(b)
  {
    var l, r := Swapped(a + b), Swapped(a) + Swapped(b);
    forall i | 0 <= i < |l|
      ensures l[i] == r[i]
    {
      if i < |a| {
        assert (a + b)[i] == a[i];
      } else {
        assert (a + b)[i] == b[i - |a|];
      }
    }
  }

  /** The first characters of the replaced text are the replaced prefix. */
  lemma SwappedPrefix(a: string, b: string)
    ensures Swapped(a + b)[..|a|] == Swapped(a)
  {
    SwappedConcat(a, b);
  }

  /** Digits are left alone. */
  lemma SwappedDigits(s: string)
    requires forall i :: 0 <= i < |s| ==> Text.IsDigit(s[i])
    ensures Swapped(s) == s
  {
  }

  /** The date and time part of the clock's text becomes the name's
      suffix: 'T' turns into '_' and each ':' into '-'. */
  lemma SwappedStamp(yy: string, mo: string, dd: string, hh: string, mi: string, ss: string)
    requires forall i :: 0 <= i < |yy| ==> Text.IsDigit(yy[i])
    requires forall i :: 0 <= i < |mo| ==> Text.IsDigit(mo[i])
    requires forall i :: 0 <= i < |dd| ==> Text.IsDigit(dd[i])
    requires forall i :: 0 <= i < |hh| ==> Text.IsDigit(hh[i])
    requires forall i :: 0 <= i < |mi| ==> Text.IsDigit(mi[i])
    requires forall i :: 0 <= i < |ss| ==> Text.IsDigit(ss[i])
    ensures Swapped(yy + "-" + mo + "-" + dd + "T" + hh + ":" + mi + ":" + ss)
         == yy + "-" + mo + "-" + dd + "_" + hh + "-" + mi + "-" + ss
  {
    var p1 := yy + "-";
    var p2 := p1 + mo;
    var p3 := p2 + "-";
    var p4 := p3 + dd;
    var p5 := p4 + "T";
    var p6 := p5 + hh;
    var p7 := p6 + ":";
    var p8 := p7 + mi;
    var p9 := p8 + ":";
    SwappedDigits(yy); SwappedDigits(mo); SwappedDigits(dd);
    SwappedDigits(hh); SwappedDigits(mi); SwappedDigits(ss);
    assert Swapped("-") == "-" && Swapped("T") == "_" && Swapped(":") == "-";
    SwappedConcat(yy, "-");
    SwappedConcat(p1, mo);
    SwappedConcat(p2, "-");
    SwappedConcat(p3, dd);
    SwappedConcat(p4, "T");
    SwappedConcat(p5, hh);
    SwappedConcat(p6, ":");
    SwappedConcat(p7, mi);
    SwappedConcat(p8, ":");
    SwappedConcat(p9, ss);
  }

  /** Wherever the as-written name exists it is the corrected name: the
      correction changes only the whole-minute case. */
  lemma TrainedNameAgrees(d: LocalDateTime.DateTime)
    requires LocalDateTime.Valid(d) && TrainedNameAsWritten(LocalDateTime.IsoString(d)).Ok?
    ensures TrainedNameAsWritten(LocalDateTime.IsoString(d)).value == TrainedName(d)
  {
    var yy := LocalDateTime.Padded(d.year, 4);
    var mo := LocalDateTime.Padded(d.month, 2);
    var dd := LocalDateTime.Padded(d.day, 2);
    var hh := LocalDateTime.Padded(d.hour, 2);
    var mi := LocalDateTime.Padded(d.minute, 2);
    var ss := LocalDateTime.Padded(d.second, 2);
    var stamp := yy + "-" + mo + "-" + dd + "T" + hh + ":" + mi + ":" + ss;
    var rest := LocalDateTime.Fraction(d.nano);
    var want := yy + "-" + mo + "-" + dd + "_" + hh + "-" + mi + "-" + ss;
    assert |LocalDateTime.IsoString(d)| != 16;
    LocalDateTime.IsoStringWithSeconds(d);
    SwappedStamp(yy, mo, dd, hh, mi, ss);
    SwappedPrefix(stamp, rest);
  }

  /** The reply's status and message, with their defaults. */
  datatype TrainResponse = TrainResponse(status: string, message: string, configId: nat, configName: string,
                                         trainedAt: LocalDateTime.DateTime)

  /** What is decided before any write: the configuration to deactivate
      (stored or still to create), the new one, and the reply's words. */
  datatype Plan = Plan(current: Option<nat>, currentConfig: Config, next: Config, status: string, message: string)

  /** What the server is shown. */
  datatype Payload = Payload(
    baselinePath: string, maintenancePath: string, config: map<string, real>,
    anomalyResults: seq<map<Key, Field>>, original: string)

  function PayloadOf(inputs: Inputs): Payload
  {
    Payload(inputs.baseline.storagePath, inputs.maintenance.storagePath, inputs.config.parameters,
            seq(|inputs.regions|, i requires 0 <= i < |inputs.regions| => RegionEntry(inputs.regions[i])),
            inputs.original)
  }

  const TrainedDescription := "Configuration updated from classification training at "

  /** `trainModel` up to its writes. `server` is the call to the
      classification server (none when it fails or gives no body) and
      `parse` reads its body as JSON (none when that fails). */
  function Planned(t: Tables, transformerId: nat, baselineImageId: nat, maintenanceImageId: nat,
                   now: LocalDateTime.DateTime, server: Payload -> Option<string>, parse: string -> Option<Json>)
    : (r: Result<Plan>)
    requires KeysBelow(t.configs, t.nextId) && LocalDateTime.Valid(now)
    ensures TrainingInputs(t, transformerId, baselineImageId, maintenanceImageId).Err? ==>
      r == Err(TrainingInputs(t, transformerId, baselineImageId, maintenanceImageId).error)
    ensures r.Ok? ==>
      var inputs := TrainingInputs(t, transformerId, baselineImageId, maintenanceImageId).value;
      && inputs.current == r.value.current && inputs.config == r.value.currentConfig
      && r.value.next.configName == TrainedName(now) && r.value.next.isActive
  {
    var inputs :- TrainingInputs(t, transformerId, baselineImageId, maintenanceImageId);
    var body := server(PayloadOf(inputs));
    if body.None? || body.value == "" then Err(Internal)
    else
      var root := parse(body.value);
      if root.None? then Err(Internal)
      else
        var node := Get(root.value, "updated_config");
        if node.None? then Err(Internal)
        else
          var next := Config(TrainedName(now), Some(TrainedDescription + LocalDateTime.IsoString(now)),
                             TrainedParameters(node.value), true);
          var message := if Get(root.value, "message").Some? then AsText(Get(root.value, "message").value)
                         else "Model trained successfully and configuration updated";
          var status := if Get(root.value, "status").Some? then AsText(Get(root.value, "status").value)
                        else "success";
          Ok(Plan(inputs.current, inputs.config, next, status, message))
  }

  /** A reply without `updated_config` fails the training. */
  lemma NoUpdatedConfigFails(t: Tables, transformerId: nat, baselineImageId: nat, maintenanceImageId: nat,
                             now: LocalDateTime.DateTime, server: Payload -> Option<string>,
                             parse: string -> Option<Json>, reply: string, root: Json)
    requires KeysBelow(t.configs, t.nextId) && LocalDateTime.Valid(now)
    requires TrainingInputs(t, transformerId, baselineImageId, maintenanceImageId).Ok?
    requires server(PayloadOf(TrainingInputs(t, transformerId, baselineImageId, maintenanceImageId).value))
             == Some(reply)
    requires parse(reply) == Some(root) && Get(root, "updated_config").None?
    ensures Planned(t, transformerId, baselineImageId, maintenanceImageId, now, server, parse) == Err(Internal)
  {
  }

  /** The facts the checks establish about a plan: the configuration to
      deactivate is the single active one, or there is none and the default
      may be created. */
  predicate Fits(configs: map<nat, Config>, nextId: nat, plan: Plan)
  {
    && KeysBelow(configs, nextId) && AtMostOneActive(configs) && plan.next.isActive
    && (plan.current.Some? ==>
          plan.current.value in configs && configs[plan.current.value] == plan.currentConfig
          && plan.currentConfig.isActive)
    && (plan.current.None? ==>
          (forall k :: k in configs ==> !configs[k].isActive)
          && ConfigAcceptable(configs, nextId, plan.currentConfig))
  }

  /** A plan drawn up by the checks fits the table it was drawn from. */
  lemma PlannedFits(t: Tables, transformerId: nat, baselineImageId: nat, maintenanceImageId: nat,
                    now: LocalDateTime.DateTime, server: Payload -> Option<string>, parse: string -> Option<Json>)
    requires KeysBelow(t.configs, t.nextId) && LocalDateTime.Valid(now)
    requires Planned(t, transformerId, baselineImageId, maintenanceImageId, now, server, parse).Ok?
    ensures Fits(t.configs, t.nextId, Planned(t, transformerId, baselineImageId, maintenanceImageId, now, server, parse).value)
  {
    var inputs := TrainingInputs(t, transformerId, baselineImageId, maintenanceImageId).value;
    assert ActiveConfig(t) == Ok((inputs.current, inputs.config));
  }

  /** The table once the current configuration is saved inactive (created
      first, under the next key, when it is the default). */
  function Deactivated(configs: map<nat, Config>, nextId: nat, plan: Plan): map<nat, Config>
  {
    var key := if plan.current.None? then nextId else plan.current.value;
    configs[key := plan.currentConfig.(isActive := false)]
  }

  /** The key the new configuration receives. */
  function NextKey(nextId: nat, plan: Plan): nat
  {
    if plan.current.None? then nextId + 1 else nextId
  }

  /** The new configuration's name is free once the current one is deactivated. */
  predicate Committable(configs: map<nat, Config>, nextId: nat, plan: Plan)
  {
    ConfigAcceptable(Deactivated(configs, nextId, plan), NextKey(nextId, plan), plan.next)
  }

  /** The configuration table after the plan's writes. */
  function Committed(configs: map<nat, Config>, nextId: nat, plan: Plan): map<nat, Config>
  {
    Deactivated(configs, nextId, plan)[NextKey(nextId, plan) := plan.next]
  }

  /** After the writes exactly one configuration is active: the new one. */
  lemma CommitLeavesOneActive(configs: map<nat, Config>, nextId: nat, plan: Plan)
    requires Fits(configs, nextId, plan)
    ensures var after := Committed(configs, nextId, plan);
      var key := NextKey(nextId, plan);
      && key in after && after[key] == plan.next && after[key].isActive
      && (forall k :: k in after && after[k].isActive ==> k == key)
      && AtMostOneActive(after)
  {
  }

  /** The configuration to deactivate, created first when it is the default. */
  method StoreCurrent(db: Db, plan: Plan) returns (current: nat)
    requires db.Valid() && Fits(db.configs, db.nextId, plan)
    modifies db`configs, db`nextId
    ensures db.Valid()
    ensures current == (if plan.current.None? then old(db.nextId) else plan.current.value)
    ensures db.nextId == NextKey(old(db.nextId), plan)
    ensures current in db.configs && db.configs == old(db.configs)[current := plan.currentConfig]
  {
    if plan.current.None? {
      var created, id := db.InsertConfig(plan.currentConfig);
      assert created;
      current := id;
    } else {
      current := plan.current.value;
    }
  }

  /** The writes of a fitting plan: create the default when needed, save the
      current configuration inactive, insert the new one. A refused insert
      rolls the table back. */
  method Commit(db: Db, plan: Plan) returns (ok: bool, key: nat)
    requires db.Valid() && Fits(db.configs, db.nextId, plan)
    modifies db`configs, db`nextId
    ensures db.Valid()
    ensures ok <==> Committable(old(db.configs), old(db.nextId), plan)
    ensures ok ==> key == NextKey(old(db.nextId), plan) && db.configs == Committed(old(db.configs), old(db.nextId), plan)
    ensures !ok ==> db.configs == old(db.configs)
  {
    var saved := db.configs;
    ghost var n := db.nextId;
    assert ConfigsConstrained(saved) && KeysBelow(saved, n);
    var current := StoreCurrent(db, plan);
    assert db.configs[current := plan.currentConfig.(isActive := false)] == Deactivated(saved, n, plan);
    assert db.nextId == NextKey(n, plan);
    ok, key := DeactivateAndInsert(db, current, plan);
    if !ok {
      db.RestoreConfigs(saved);
    }
  }

  /** Save the current configuration inactive, then insert the new one. */
  method DeactivateAndInsert(db: Db, current: nat, plan: Plan) returns (ok: bool, key: nat)
    requires db.Valid() && current in db.configs && db.configs[current] == plan.currentConfig
    modifies db`configs, db`nextId
    ensures db.Valid() && db.nextId >= old(db.nextId)
    ensures var off := old(db.configs)[current := plan.currentConfig.(isActive := false)];
      && (ok <==> ConfigAcceptable(off, old(db.nextId), plan.next))
      && (ok ==> key == old(db.nextId) && db.configs == off[key := plan.next])
  {
    var off := plan.currentConfig.(isActive := false);
    RenamedInPlace(db.configs, current, off);
    var saveOk := db.SaveConfig(current, off);
    ok, key := db.InsertConfig(plan.next);
  }

  /** A configuration keeps the name it has: the name still fits and stays unique. */
  lemma RenamedInPlace(configs: map<nat, Config>, key: nat, c: Config)
    requires ConfigsConstrained(configs) && key in configs && c.configName == configs[key].configName
    ensures ConfigAcceptable(configs, key, c)
  {
  }

  /** `trainModel`: the checks and the call, then the writes. Every failure
      leaves the configuration table as it was. */
  method TrainModel(db: Db, transformerId: nat, baselineImageId: nat, maintenanceImageId: nat,
                    now: LocalDateTime.DateTime, server: Payload -> Option<string>, parse: string -> Option<Json>)
    returns (res: Result<TrainResponse>)
    requires db.Valid() && LocalDateTime.Valid(now)
    modifies db`configs, db`nextId
    ensures db.Valid()
    ensures var p := Planned(old(db.Snapshot()), transformerId, baselineImageId, maintenanceImageId, now, server, parse);
      if p.Ok? && Committable(old(db.configs), old(db.nextId), p.value) then
        res == Ok(TrainResponse(p.value.status, p.value.message, NextKey(old(db.nextId), p.value),
                                p.value.next.configName, now))
        && db.configs == Committed(old(db.configs), old(db.nextId), p.value)
      else
        res == Err(if p.Err? then p.error else Internal) && db.configs == old(db.configs)
  {
    var p := Planned(db.Snapshot(), transformerId, baselineImageId, maintenanceImageId, now, server, parse);
    if p.Err? {
      return Err(p.error);
    }
    PlannedFits(db.Snapshot(), transformerId, baselineImageId, maintenanceImageId, now, server, parse);
    var ok, key := Commit(db, p.value);
    if !ok {
      return Err(Internal);
    }
    return Ok(TrainResponse(p.value.status, p.value.message, key, p.value.next.configName, now));
  }
}
