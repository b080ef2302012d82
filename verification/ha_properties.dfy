/** What the entity registry and a discovery round of ha.c guarantee. */
module HaProperties {
  import opened Common
  import opened Ha

  // ---------------------------------------------------------------------------
  // The registry

  /**
   * Registering keeps what is there, in place, and never grows the registry
   * beyond MAX_ENTITIES; while there is room, named entities are appended
   * in the order they are registered.
   */
  lemma {:induction false} RegisterAllAppends(v: HaState, cfgs: seq<EntityConfig>)
    requires WellFormed(v)
    ensures var w := RegisterAll(v, cfgs);
      && |v.entities| <= |w.entities| <= MaxEntities
      && w.entities[..|v.entities|] == v.entities
      && w.defaultRegistered == v.defaultRegistered && w.hasSentFullDev == v.hasSentFullDev
      && ((|v.entities| + |cfgs| <= MaxEntities && forall i :: 0 <= i < |cfgs| ==> cfgs[i].name.Some?)
          ==> w.entities == v.entities + cfgs)
  {
    if cfgs != [] {
      var front := cfgs[..|cfgs| - 1];
      RegisterAllAppends(v, front);
      RegisterAllKeepsWellFormed(v, front);
      var u := RegisterAll(v, front);
      if |v.entities| + |cfgs| <= MaxEntities && forall i :: 0 <= i < |cfgs| ==> cfgs[i].name.Some? {
        assert forall i :: 0 <= i < |front| ==> front[i] == cfgs[i];
        assert u.entities == v.entities + front;
        assert cfgs == front + [cfgs[|cfgs| - 1]];
      }
    }
  }

  /** An entity without a name, or one more than MAX_ENTITIES, is refused and changes nothing. */
  lemma RegisterRefuses(v: HaState, cfg: Option<EntityConfig>)
    requires WellFormed(v)
    requires |v.entities| == MaxEntities || cfg.None? || cfg.value.name.None?
    ensures RegisterStep(v, cfg) == v
  {
  }

  /** register_default_entities runs once: a second call changes nothing. */
  lemma DefaultsOnce(v: HaState)
    ensures DefaultsStep(v).defaultRegistered
    ensures DefaultsStep(DefaultsStep(v)) == DefaultsStep(v)
    ensures v.defaultRegistered ==> DefaultsStep(v) == v
  {
  }

  /** With room for them, the six default entities follow the ones already registered, in order. */
  lemma DefaultsAppended(v: HaState, ds: seq<EntityConfig>)
    requires WellFormed(v) && !v.defaultRegistered && |v.entities| + 6 <= MaxEntities
    requires ds == DefaultEntities()
    ensures DefaultsStep(v).entities == v.entities + ds
    ensures |ds| == 6 && ds[0].name == Some("Temperature") && ds[3].kind == Switch
    ensures forall i :: 0 <= i < 6 ==> ds[i].name.Some?
  {
    RegisterAllAppends(v.(defaultRegistered := true), ds);
  }

  // ---------------------------------------------------------------------------
  // A discovery round

  /** The i-th publication of a round is the message of the i-th entity, under the flag the round has reached. */
  lemma {:induction false} PublishedAt(v: HaState, empty: bool, m: MqttConfig, sanitize: string -> string, k: nat, i: nat)
    requires WellFormed(v) && i < k <= |v.entities|
    ensures PublishFirst(v, empty, m, sanitize, k).pubs[i]
      == EntityPublication(FlagBefore(v, empty, i), v.entities[i], empty, m, sanitize)
  {
    PublishNext(v, empty, m, sanitize, k);
    if i < k - 1 {
      PublishedAt(v, empty, m, sanitize, k - 1, i);
    }
  }

  /**
   * One retained publication per registered entity, in registry order, on
   * the entity's discovery topic; empty exactly when the round is a removal,
   * otherwise naming the entity under its unique id.
   */
  lemma OnePublicationPerEntity(v: HaState, empty: bool, m: MqttConfig, sanitize: string -> string, k: nat, i: nat)
    requires WellFormed(v) && i < k <= |v.entities|
    ensures var pubs := PublishFirst(v, empty, m, sanitize, k).pubs;
      var e := v.entities[i];
      && |pubs| == k
      && pubs[i].topic == EntityTopic(m, e, sanitize)
      && (pubs[i].payload.None? <==> empty)
      && (pubs[i].payload.Some? ==>
            pubs[i].payload.value.name == e.name.value
            && pubs[i].payload.value.uniqueId == UniqueId(m.clientId, sanitize(e.name.value))
            && pubs[i].payload.value.builder == BuilderFor(e))
  {
    PublishedAt(v, empty, m, sanitize, k, i);
  }

  /**
   * has_sent_full_dev: in a round of full publications only the first
   * carries the full device block, and only if none was sent since the last
   * reset; afterwards the flag is set.
   */
  lemma FullDeviceOnce(v: HaState, m: MqttConfig, sanitize: string -> string, k: nat, i: nat)
    requires WellFormed(v) && i < k <= |v.entities|
    ensures var r := PublishFirst(v, false, m, sanitize, k);
      && |r.pubs| == k && r.pubs[i].payload.Some?
      && (r.pubs[i].payload.value.device.full.Some? <==> i == 0 && !v.hasSentFullDev)
      && r.after.hasSentFullDev
  {
    PublishedAt(v, false, m, sanitize, k, i);
  }

  /** After a removal round, the first entity of the next full round carries the full device block. */
  lemma RemoveThenRepublish(v: HaState, m: MqttConfig, sanitize: string -> string)
    requires WellFormed(v) && |v.entities| > 0
    ensures var removed := PublishFirst(v, true, m, sanitize, |v.entities|).after;
      var again := PublishFirst(removed, false, m, sanitize, |removed.entities|);
      !removed.hasSentFullDev && again.pubs[0].payload.Some? && again.pubs[0].payload.value.device.full.Some?
  {
    var removed := PublishFirst(v, true, m, sanitize, |v.entities|).after;
    PublishedAt(removed, false, m, sanitize, |removed.entities|, 0);
  }

  /** publish_ha_mqtt_discovery publishes every entity registered once the defaults are in. */
  lemma DiscoveryCoversRegistry(v: HaState, registered: HaState, forceEmpty: bool, m: MqttConfig, sanitize: string -> string, i: nat)
    requires WellFormed(v) && registered == DefaultsStep(v) && i < |registered.entities|
    ensures var r := DiscoveryStep(v, forceEmpty, m, sanitize);
      && |r.pubs| == |registered.entities|
      && r.pubs[i].topic == EntityTopic(m, registered.entities[i], sanitize)
      && r.after.entities == registered.entities && r.after.defaultRegistered
  {
    PublishedAt(registered, forceEmpty, m, sanitize, |registered.entities|, i);
  }

  // ---------------------------------------------------------------------------
  // Identifiers

  /** Distinct sanitized names give distinct unique ids, as long as the 63-character cut cuts neither. */
  lemma UniqueIdInjective(clientId: string, a: string, b: string)
    requires |Truncate(clientId, 6)| + 1 + |a| <= 63 && |Truncate(clientId, 6)| + 1 + |b| <= 63
    requires UniqueId(clientId, a) == UniqueId(clientId, b)
    ensures a == b
  {
    var p := Truncate(clientId, 6) + "_";
    assert UniqueId(clientId, a) == p + a;
    assert UniqueId(clientId, b) == p + b;
    assert a == (p + a)[|p|..];
  }

  /** Distinct unique ids give distinct topics of one type, as long as the 127-character cut cuts neither. */
  lemma TopicInjective(prefix: string, typeStr: string, u: string, w: string)
    requires |prefix| + |typeStr| + |u| + 9 <= 127 && |prefix| + |typeStr| + |w| + 9 <= 127
    requires Topic(prefix, typeStr, u) == Topic(prefix, typeStr, w)
    ensures u == w
  {
    var p := prefix + "/" + typeStr + "/";
    assert Topic(prefix, typeStr, u) == p + u + "/config";
    assert Topic(prefix, typeStr, w) == p + w + "/config";
    assert |u| == |w|;
    assert u == (p + u + "/config")[|p|..|p| + |u|];
    assert w == (p + w + "/config")[|p|..|p| + |w|];
  }

  /** The unique id starts with at most six characters of the client id and an underscore. */
  lemma UniqueIdShape(clientId: string, sn: string)
    requires |Truncate(clientId, 6)| + 1 + |sn| <= 63
    ensures UniqueId(clientId, sn) == clientId[..Min(6, |clientId|)] + "_" + sn
  {
  }

  /**
   * The value template names the sanitized field, under its parent key when
   * there is one, and distinct fields of one parent give distinct templates
   * as long as the 127-character cut affects neither.
   */
  lemma ValueTemplateShape(parentKey: Option<string>, a: string, b: string)
    requires parentKey.Some? ==> |parentKey.value| + |a| + 18 <= 127 && |parentKey.value| + |b| + 18 <= 127
    requires parentKey.None? ==> |a| + 17 <= 127 && |b| + 17 <= 127
    ensures parentKey.Some? ==> ValueTemplate(parentKey, a) == "{{ value_json." + parentKey.value + "." + a + " }}"
    ensures parentKey.None? ==> ValueTemplate(parentKey, a) == "{{ value_json." + a + " }}"
    ensures ValueTemplate(parentKey, a) == ValueTemplate(parentKey, b) ==> a == b
  {
    var p := if parentKey.Some? then "{{ value_json." + parentKey.value + "." else "{{ value_json.";
    assert ValueTemplate(parentKey, a) == p + a + " }}";
    assert ValueTemplate(parentKey, b) == p + b + " }}";
    if ValueTemplate(parentKey, a) == ValueTemplate(parentKey, b) {
      assert |a| == |b|;
      assert a == (p + a + " }}")[|p|..|p| + |a|];
      assert b == (p + b + " }}")[|p|..|p| + |b|];
    }
  }
}
