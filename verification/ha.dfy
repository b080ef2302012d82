/**
 * Home Assistant MQTT discovery (ha.c): the bounded entity registry, the
 * default entities, and what one discovery round publishes for each entity
 * (topic, unique id, value template and device block). The JSON text of a
 * payload is not modelled; a payload is the record of the fields ha.c
 * decides.
 */
module Ha {
  import opened Common

  /** MAX_ENTITIES */
  const MaxEntities: nat := 32

  /** ha_entity_type_t (metadata.h) */
  datatype EntityType = EntityNone | Sensor | Switch | Button | Light | BinarySensor

  /** A custom payload builder: build_tasks_dict, or one defined elsewhere. */
  datatype Builder = TasksDictBuilder | ExternalBuilder(id: nat)

  /** ha_entity_config_t; a NULL field is None. */
  datatype EntityConfig = EntityConfig(
    kind: EntityType,
    name: Option<string>,
    deviceClass: Option<string>,
    entityCategory: Option<string>,
    parentKey: Option<string>,
    icon: Option<string>,
    unit: Option<string>,
    customBuilder: Option<Builder>)

  /** A compound literal naming only the type and the name. */
  function Entity(kind: EntityType, name: string): (e: EntityConfig)
    ensures e.kind == kind && e.name == Some(name) && e.customBuilder.None? && e.parentKey.None?
  {
    EntityConfig(kind, Some(name), None, None, None, None, None, None)
  }

  /** get_type_str */
  function TypeStr(t: EntityType): (s: string)
    ensures t == Sensor ==> s == "sensor"
    ensures t == Switch ==> s == "switch"
    ensures t == Button ==> s == "button"
    ensures t == Light ==> s == "light"
    ensures s == "unknown" <==> t in {EntityNone, BinarySensor}
  {
    match t
    case Sensor => "sensor"
    case Switch => "switch"
    case Button => "button"
    case Light => "light"
    case _ => "unknown"
  }

  // ---------------------------------------------------------------------------
  // The registry as a value

  datatype HaState = HaState(
    entities: seq<EntityConfig>,   // entities[0 .. entity_count)
    defaultRegistered: bool,       // default_registered
    hasSentFullDev: bool)          // has_sent_full_dev

  /** Every stored entity has a name, and there are at most MaxEntities of them. */
  predicate WellFormed(v: HaState)
  {
    |v.entities| <= MaxEntities && forall i :: 0 <= i < |v.entities| ==> v.entities[i].name.Some?
  }

  /** ha_register_entity */
  function RegisterStep(v: HaState, cfg: Option<EntityConfig>): (w: HaState)
    ensures w.defaultRegistered == v.defaultRegistered && w.hasSentFullDev == v.hasSentFullDev
    ensures WellFormed(v) ==> WellFormed(w)
    ensures |w.entities| == |v.entities| + 1 <==>
      |v.entities| < MaxEntities && cfg.Some? && cfg.value.name.Some?
    ensures |w.entities| != |v.entities| + 1 ==> w == v
    ensures |w.entities| == |v.entities| + 1 ==> w.entities == v.entities + [cfg.value]
  {
    if |v.entities| >= MaxEntities then v
    else if cfg.None? || cfg.value.name.None? then v
    else v.(entities := v.entities + [cfg.value])
  }

  /** Registering several entities one after another. */
  function RegisterAll(v: HaState, cfgs: seq<EntityConfig>): (w: HaState)
    ensures w.defaultRegistered == v.defaultRegistered && w.hasSentFullDev == v.hasSentFullDev
  {
    if cfgs == [] then v
    else RegisterStep(RegisterAll(v, cfgs[..|cfgs| - 1]), Some(cfgs[|cfgs| - 1]))
  }

  /** Registering one more of a list of entities. */
  lemma RegisterAllNext(v: HaState, cfgs: seq<EntityConfig>, k: nat)
    requires k < |cfgs|
    ensures RegisterAll(v, cfgs[..k + 1]) == RegisterStep(RegisterAll(v, cfgs[..k]), Some(cfgs[k]))
  {
    assert cfgs[..k + 1][..k] == cfgs[..k];
  }

  /** The six entities register_default_entities registers, in order. */
  function DefaultEntities(): (ds: seq<EntityConfig>)
    ensures |ds| == 6
  {
    [ Entity(Sensor, "Temperature").(deviceClass := Some("temperature")),
      Entity(Sensor, "Uptime").(deviceClass := Some("duration"), entityCategory := Some("diagnostic")),
      Entity(Sensor, "Startup").(deviceClass := Some("timestamp"), entityCategory := Some("diagnostic")),
      Entity(Switch, "Onboard Led"),
      Entity(Button, "Restart").(entityCategory := Some("diagnostic")),
      Entity(Sensor, "Tasks Dict").(entityCategory := Some("diagnostic"), customBuilder := Some(TasksDictBuilder)) ]
  }

  /** register_default_entities */
  function DefaultsStep(v: HaState): (w: HaState)
    ensures w.defaultRegistered && w.hasSentFullDev == v.hasSentFullDev
    ensures WellFormed(v) ==> WellFormed(w)
  {
    if v.defaultRegistered then v
    else
      var u := v.(defaultRegistered := true);
      RegisterAllKeepsWellFormed(u, DefaultEntities());
      RegisterAll(u, DefaultEntities())
  }

  lemma {:induction false} RegisterAllKeepsWellFormed(v: HaState, cfgs: seq<EntityConfig>)
    ensures WellFormed(v) ==> WellFormed(RegisterAll(v, cfgs))
  {
    if cfgs != [] {
      RegisterAllKeepsWellFormed(v, cfgs[..|cfgs| - 1]);
    }
  }

  // ---------------------------------------------------------------------------
  // What a publication holds

  /** The fields of mqtt_get_config() that discovery reads. */
  datatype MqttConfig = MqttConfig(
    clientId: string,
    deviceName: string,
    manufacturer: string,
    model: string,
    hwVersion: string,
    swVersion: string,
    ipAddress: string,
    discoveryPrefix: string,
    node: string)

  /** The full device description ("name", "mf", "mdl", "hw", "sw", "cu"). */
  datatype DeviceInfo = DeviceInfo(name: string, mf: string, mdl: string, hw: string, sw: string, cu: string)

  /** create_ha_device: "ids" always, the rest only in the full block. */
  datatype Device = Device(ids: string, full: Option<DeviceInfo>)

  /** The config URL: "http://<ip>" in a 32-byte buffer, counted here in characters (its bytes, for ASCII). */
  function ConfigUrl(ip: string): (u: string)
    ensures |u| <= 31
    ensures |ip| <= 24 ==> u == "http://" + ip
  {
    Truncate("http://" + ip, 31)
  }

  /** The payload builder publish_entity runs: a custom one first, else one chosen by type. */
  datatype BuilderRun = RunCustom(b: Builder) | RunSwitch | RunButton | RunLight(parentKey: Option<string>) | RunNone

  function BuilderFor(e: EntityConfig): (r: BuilderRun)
    ensures e.customBuilder.Some? ==> r == RunCustom(e.customBuilder.value)
    ensures e.customBuilder.None? && e.kind == Light ==> r == RunLight(e.parentKey)
    ensures r == RunNone <==> e.customBuilder.None? && e.kind !in {Switch, Button, Light}
  {
    if e.customBuilder.Some? then RunCustom(e.customBuilder.value)
    else if e.kind == Switch then RunSwitch
    else if e.kind == Button then RunButton
    else if e.kind == Light then RunLight(e.parentKey)
    else RunNone
  }

  /** The fields of a discovery payload that ha.c computes itself. */
  datatype Payload = Payload(
    name: string,
    uniqueId: string,
    base: string,                  // "~": <node>/<client_id>
    valueTemplate: string,         // "val_tpl" before any builder runs
    deviceClass: Option<string>,
    entityCategory: Option<string>,
    icon: Option<string>,
    unit: Option<string>,
    builder: BuilderRun,
    device: Device)

  /** A retained publication; an empty payload is None. */
  datatype Publication = Publication(topic: string, payload: Option<Payload>)

  /** The unique id: "%.6s_%s" of the client id and the sanitized name, in a 64-byte buffer, counted here in characters (its bytes, for ASCII). */
  function UniqueId(clientId: string, sanitizedName: string): (u: string)
    ensures |u| <= 63
  {
    Truncate(Truncate(clientId, 6) + "_" + sanitizedName, 63)
  }

  /** The discovery topic "<prefix>/<type>/<unique id>/config", in a 128-byte buffer, counted here in characters (its bytes, for ASCII). */
  function Topic(prefix: string, typeStr: string, uniqueId: string): (t: string)
    ensures |t| <= 127
    ensures |prefix| + |typeStr| + |uniqueId| + 9 <= 127 ==> t == prefix + "/" + typeStr + "/" + uniqueId + "/config"
  {
    Truncate(prefix + "/" + typeStr + "/" + uniqueId + "/config", 127)
  }

  /** "val_tpl": the sanitized name under value_json, below the parent key when there is one. */
  function ValueTemplate(parentKey: Option<string>, sanitizedName: string): (t: string)
    ensures |t| <= 127
  {
    match parentKey
    case Some(p) => Truncate("{{ value_json." + p + "." + sanitizedName + " }}", 127)
    case None => Truncate("{{ value_json." + sanitizedName + " }}", 127)
  }

  /** The topic of an entity's discovery message. */
  function EntityTopic(m: MqttConfig, e: EntityConfig, sanitize: string -> string): string
    requires e.name.Some?
  {
    Topic(m.discoveryPrefix, TypeStr(e.kind), UniqueId(m.clientId, sanitize(e.name.value)))
  }

  /** The result of publishing: the registry afterwards and the message sent. */
  datatype Published = Published(after: HaState, pubs: seq<Publication>)

  /**
   * The message publish_entity sends for entity e; `sentFull` is
   * has_sent_full_dev beforehand, which decides whether create_ha_device
   * adds the full device block.
   */
  function EntityPublication(sentFull: bool, e: EntityConfig, empty: bool, m: MqttConfig, sanitize: string -> string): (pub: Publication)
    requires e.name.Some?
    ensures pub.topic == EntityTopic(m, e, sanitize)
    ensures pub.payload.None? <==> empty
    ensures pub.payload.Some? ==>
      && pub.payload.value.name == e.name.value
      && pub.payload.value.uniqueId == UniqueId(m.clientId, sanitize(e.name.value))
      && pub.payload.value.valueTemplate == ValueTemplate(e.parentKey, sanitize(e.name.value))
      && pub.payload.value.builder == BuilderFor(e)
      && pub.payload.value.device.ids == m.clientId
      && (pub.payload.value.device.full.Some? <==> !sentFull)
      && (pub.payload.value.device.full.Some? ==> pub.payload.value.device.full.value.cu == ConfigUrl(m.ipAddress))
  {
    var sn := sanitize(e.name.value);
    var uid := UniqueId(m.clientId, sn);
    var topic := Topic(m.discoveryPrefix, TypeStr(e.kind), uid);
    if empty then Publication(topic, None)
    else
      var device := Device(m.clientId,
        if sentFull then None
        else Some(DeviceInfo(m.deviceName, m.manufacturer, m.model, m.hwVersion, m.swVersion, ConfigUrl(m.ipAddress))));
      Publication(topic, Some(Payload(e.name.value, uid, Truncate(m.node + "/" + m.clientId, 127),
        ValueTemplate(e.parentKey, sn), e.deviceClass, e.entityCategory, e.icon, e.unit, BuilderFor(e), device)))
  }

  /**
   * publish_entity: an empty publication clears has_sent_full_dev; a full one
   * leaves it set, create_ha_device setting it when it sends the full block.
   */
  function PublishStep(v: HaState, e: EntityConfig, empty: bool, m: MqttConfig, sanitize: string -> string): (p: Published)
    requires e.name.Some?
  {
    var pub := EntityPublication(v.hasSentFullDev, e, empty, m, sanitize);
    Published(v.(hasSentFullDev := !empty), [pub])
  }

  /** has_sent_full_dev before the i-th publication of a round that starts from v. */
  function FlagBefore(v: HaState, empty: bool, i: nat): bool
  {
    if i == 0 then v.hasSentFullDev else !empty
  }

  /**
   * The discovery loop over entities[0 .. k): one publication per entity, in
   * order, only the first of a full round able to carry the full device
   * block; afterwards has_sent_full_dev says whether the last one was full.
   */
  function PublishFirst(v: HaState, empty: bool, m: MqttConfig, sanitize: string -> string, k: nat): (r: Published)
    requires WellFormed(v) && k <= |v.entities|
    ensures r.after == v.(hasSentFullDev := FlagBefore(v, empty, k))
    ensures |r.pubs| == k
  {
    if k == 0 then Published(v, [])
    else
      var before := PublishFirst(v, empty, m, sanitize, k - 1);
      var step := PublishStep(before.after, v.entities[k - 1], empty, m, sanitize);
      Published(step.after, before.pubs + step.pubs)
  }

  /** One more entity appends its publication to a round. */
  lemma PublishNext(v: HaState, empty: bool, m: MqttConfig, sanitize: string -> string, k: nat)
    requires WellFormed(v) && 0 < k <= |v.entities|
    ensures PublishFirst(v, empty, m, sanitize, k).pubs
      == PublishFirst(v, empty, m, sanitize, k - 1).pubs
         + [EntityPublication(FlagBefore(v, empty, k - 1), v.entities[k - 1], empty, m, sanitize)]
  {
  }

  /** publish_ha_mqtt_discovery */
  function DiscoveryStep(v: HaState, forceEmpty: bool, m: MqttConfig, sanitize: string -> string): Published
    requires WellFormed(v)
  {
    var registered := DefaultsStep(v);
    PublishFirst(registered, forceEmpty, m, sanitize, |registered.entities|)
  }

  // ---------------------------------------------------------------------------
  // The module state of ha.c

  /** A zero-initialised slot of entities[]. */
  const EmptySlot: EntityConfig := EntityConfig(EntityNone, None, None, None, None, None, None, None)

  class Registry {
    const entities: array<EntityConfig>
    /** entity_count */
    var count: nat
    var defaultRegistered: bool
    var hasSentFullDev: bool

    ghost predicate Valid()
      reads this`count, entities
    {
      && entities.Length == MaxEntities
      && count <= MaxEntities
      && forall i :: 0 <= i < count ==> entities[i].name.Some?
    }

    ghost function Model(): HaState
      reads this`count, this`defaultRegistered, this`hasSentFullDev, entities
      requires Valid()
    {
      HaState(entities[..count], defaultRegistered, hasSentFullDev)
    }

    constructor ()
      ensures Valid() && Model() == HaState([], false, false)
    {
      entities := new EntityConfig[MaxEntities](_ => EmptySlot);
      count := 0;
      defaultRegistered := false;
      hasSentFullDev := false;
    }

    /** ha_register_entity */
    method RegisterEntity(cfg: Option<EntityConfig>)
      requires Valid()
      modifies this`count, entities
      ensures Valid()
      ensures Model() == RegisterStep(old(Model()), cfg)
    {
      if count >= MaxEntities {
        return;
      }
      if cfg.None? || cfg.value.name.None? {
        return;
      }
      entities[count] := cfg.value;
      count := count + 1;
    }

    /** register_default_entities */
    method RegisterDefaults()
      requires Valid()
      modifies this`count, this`defaultRegistered, entities
      ensures Valid()
      ensures Model() == DefaultsStep(old(Model()))
    {
      if defaultRegistered {
        return;
      }
      defaultRegistered := true;
      RegisterSix(DefaultEntities());
    }

    /** Six ha_register_entity calls in a row. */
    method RegisterSix(ds: seq<EntityConfig>)
      requires Valid() && |ds| == 6
      modifies this`count, entities
      ensures Valid() && Model() == RegisterAll(old(Model()), ds)
    {
      ghost var start := Model();
      assert ds[..0] == [];
      RegisterEntity(Some(ds[0]));
      RegisterAllNext(start, ds, 0);
      assert Model() == RegisterAll(start, ds[..1]);
      RegisterEntity(Some(ds[1]));
      RegisterAllNext(start, ds, 1);
      assert Model() == RegisterAll(start, ds[..2]);
      RegisterEntity(Some(ds[2]));
      RegisterAllNext(start, ds, 2);
      assert Model() == RegisterAll(start, ds[..3]);
      RegisterEntity(Some(ds[3]));
      RegisterAllNext(start, ds, 3);
      assert Model() == RegisterAll(start, ds[..4]);
      RegisterEntity(Some(ds[4]));
      RegisterAllNext(start, ds, 4);
      assert Model() == RegisterAll(start, ds[..5]);
      RegisterEntity(Some(ds[5]));
      RegisterAllNext(start, ds, 5);
      assert Model() == RegisterAll(start, ds[..6]);
      assert ds[..6] == ds;
    }

    /** publish_entity */
    method PublishEntity(e: EntityConfig, empty: bool, m: MqttConfig, sanitize: string -> string)
      returns (pub: Publication)
      requires Valid() && e.name.Some?
      modifies this`hasSentFullDev
      ensures Valid()
      ensures Published(Model(), [pub]) == PublishStep(old(Model()), e, empty, m, sanitize)
    {
      var sn := sanitize(e.name.value);
      var uid := UniqueId(m.clientId, sn);
      var topic := Topic(m.discoveryPrefix, TypeStr(e.kind), uid);
      if empty {
        pub := Publication(topic, None);
        hasSentFullDev := false;
        return;
      }
      var tilde := Truncate(m.node + "/" + m.clientId, 127);
      var template := ValueTemplate(e.parentKey, sn);
      var builder := BuilderFor(e);
      // create_ha_device
      var full := None;
      if !hasSentFullDev {
        hasSentFullDev := true;
        full := Some(DeviceInfo(m.deviceName, m.manufacturer, m.model, m.hwVersion, m.swVersion, ConfigUrl(m.ipAddress)));
      }
      var payload := Payload(e.name.value, uid, tilde, template, e.deviceClass, e.entityCategory, e.icon, e.unit,
                             builder, Device(m.clientId, full));
      pub := Publication(topic, Some(payload));
    }

    /** publish_ha_mqtt_discovery */
    method PublishDiscovery(forceEmpty: bool, m: MqttConfig, sanitize: string -> string)
      returns (pubs: seq<Publication>)
      requires Valid()
      modifies this`count, this`defaultRegistered, this`hasSentFullDev, entities
      ensures Valid()
      ensures WellFormed(old(Model()))
      ensures Published(Model(), pubs) == DiscoveryStep(old(Model()), forceEmpty, m, sanitize)
    {
      RegisterDefaults();
      pubs := PublishAll(forceEmpty, m, sanitize);
    }

    /** The loop of publish_ha_mqtt_discovery over the registered entities. */
    method PublishAll(forceEmpty: bool, m: MqttConfig, sanitize: string -> string)
      returns (pubs: seq<Publication>)
      requires Valid()
      modifies this`hasSentFullDev
      ensures Valid() && WellFormed(old(Model()))
      ensures Published(Model(), pubs) == PublishFirst(old(Model()), forceEmpty, m, sanitize, count)
    {
      ghost var registered := Model();
      pubs := [];
      for i := 0 to count
        invariant Valid() && Model().entities == registered.entities
        invariant Published(Model(), pubs) == PublishFirst(registered, forceEmpty, m, sanitize, i)
      {
        PublishNext(registered, forceEmpty, m, sanitize, i + 1);
        var pub := PublishEntity(entities[i], forceEmpty, m, sanitize);
        pubs := pubs + [pub];
      }
    }
  }
}
