/** The configuration half of the detector call. `detectAnomalies` sends the
    active configuration together with the two images; when no configuration
    is active it first saves an active default one. That row stays even when
    the call itself then fails, since the upload is not a transaction. */
module AnomalyDetection {
  import opened Common
  import opened Entities
  import opened Database
  import ClassificationTraining

  /** The store with the default configuration saved under a fresh key. */
  function WithDefault(t: Tables): Tables
  {
    t.(configs := t.configs[t.nextId := ClassificationTraining.DefaultConfig], nextId := t.nextId + 1)
  }

  /** `getActiveConfig` of the detection service, seen on the whole store:
      the configuration sent to the detector, and the store afterwards. Two
      active rows, or a default whose name is taken, fail with a 500 and change
      nothing; a missing active row is replaced by the default. */
  function DetectionConfig(t: Tables): (r: (Tables, Result<Config>))
    requires KeysBelow(t.configs, t.nextId)
    ensures r.1.Ok? <==> ClassificationTraining.ActiveConfig(t).Ok?
    ensures r.1.Err? ==> r.0 == t && r.1.error == Internal
    ensures r.1.Ok? ==> r.1.value.isActive
    ensures r.0 == t || (r.0 == WithDefault(t) && r.1 == Ok(ClassificationTraining.DefaultConfig))
    // the default is saved only when no row is active
    ensures r.0 != t ==> forall k :: k in t.configs ==> !t.configs[k].isActive
  {
    var active := ClassificationTraining.ActiveConfig(t);
    if active.Err? then (t, Err(active.error))
    else if active.value.0.Some? then (t, Ok(active.value.1))
    else (WithDefault(t), Ok(active.value.1))
  }

  /** Saving the default keeps the store's constraints. */
  lemma WithDefaultValid(t: Tables)
    requires ValidTables(t)
    requires ConfigAcceptable(t.configs, t.nextId, ClassificationTraining.DefaultConfig)
    ensures ValidTables(WithDefault(t))
  {
    var u := WithDefault(t);
    assert ConfigsConstrained(u.configs) by {
      assert t.nextId !in t.configs;
      assert |ClassificationTraining.DefaultConfig.configName| <= ConfigNameLength;
    }
    assert KeysBelow(u.transformers, u.nextId) && KeysBelow(u.inspections, u.nextId);
    assert KeysBelow(u.images, u.nextId) && KeysBelow(u.regions, u.nextId);
    assert KeysBelow(u.records, u.nextId) && KeysBelow(u.users, u.nextId);
    assert KeysBelow(u.questions, u.nextId) && KeysBelow(u.configs, u.nextId);
  }

  /** After a successful lookup exactly one configuration is active, and it is
      the one sent to the detector. */
  lemma {:induction false} DetectionConfigActive(t: Tables)
    requires KeysBelow(t.configs, t.nextId)
    ensures var (u, r) := DetectionConfig(t);
      r.Ok? ==> exists k :: k in u.configs && u.configs[k] == r.value && u.configs[k].isActive
                            && forall j :: j in u.configs && u.configs[j].isActive ==> j == k
  {
    var (u, r) := DetectionConfig(t);
    var active := ClassificationTraining.ActiveConfig(t);
    if r.Ok? {
      if active.value.0.Some? {
        var k := active.value.0.value;
        assert u == t && u.configs[k] == r.value;
        assert ClassificationTraining.AtMostOneActive(t.configs);
      } else {
        var k := t.nextId;
        assert k !in t.configs;
        assert u.configs[k] == r.value;
        assert forall j :: j in t.configs ==> !t.configs[j].isActive;
      }
    }
  }

  /** With exactly one active row, the lookup finds that row. */
  lemma ActiveFound(t: Tables, k: nat)
    requires KeysBelow(t.configs, t.nextId) && k in t.configs && t.configs[k].isActive
    requires forall j :: j in t.configs && t.configs[j].isActive ==> j == k
    ensures ClassificationTraining.ActiveConfig(t) == Ok((Some(k), t.configs[k]))
  {
    var again := ClassificationTraining.ActiveConfig(t);
    assert again.Ok? by {
      assert ClassificationTraining.AtMostOneActive(t.configs);
      assert !(forall j :: j in t.configs ==> !t.configs[j].isActive);
    }
  }

  /** A second lookup finds what the first one left: it changes nothing and
      sends the same configuration. */
  lemma {:induction false} DetectionConfigStable(t: Tables)
    requires KeysBelow(t.configs, t.nextId)
    ensures var (u, r) := DetectionConfig(t);
      KeysBelow(u.configs, u.nextId) && (r.Ok? ==> DetectionConfig(u) == (u, r))
  {
    var (u, r) := DetectionConfig(t);
    var active := ClassificationTraining.ActiveConfig(t);
    if r.Ok? && active.value.0.None? {
      var k := t.nextId;
      assert u == WithDefault(t) && k !in t.configs;
      assert forall j :: j in t.configs ==> !t.configs[j].isActive;
      ActiveFound(u, k);
    }
  }

  /** `getActiveConfig` of the detection service: reads the active row and,
      when there is none, saves the default. */
  method GetActiveConfig(db: Db) returns (r: Result<Config>)
    requires db.Valid()
    modifies db`configs, db`nextId
    ensures db.Valid()
    ensures (db.Snapshot(), r) == DetectionConfig(old(db.Snapshot()))
  {
    var active := ClassificationTraining.ActiveConfig(db.Snapshot());
    if active.Err? {
      return Err(active.error);
    }
    if active.value.0.Some? {
      return Ok(active.value.1);
    }
    var ok, id := db.InsertConfig(active.value.1);
    if !ok {
      assert false;
      return Err(Internal);
    }
    r := Ok(active.value.1);
  }
}
