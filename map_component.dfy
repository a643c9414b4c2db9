/** The map component (src/components/Dashboard/Map.jsx): the feature store, its cache in
    local storage and the feature group, rewritten by the draw control's gesture handlers. */
module MapComponent {
  import opened Wrappers
  import opened GeoData
  import opened Leaflet
  import opened Browser
  import opened Api
  import opened FeatureStore

  /** The layers of a gesture's batch that carry a truthy `feature.properties.id`, in order:
      exactly these produce an update or delete call. */
  function TaggedLayers(batch: seq<Layer>): (t: seq<Layer>)
    ensures |t| <= |batch|
    ensures forall j :: 0 <= j < |t| ==> HasTruthyTag(t[j])
  {
    if batch == [] then []
    else
      TaggedLayers(batch[..|batch| - 1])
        + if HasTruthyTag(batch[|batch| - 1]) then [batch[|batch| - 1]] else []
  }

  /** A layer produces a call if and only if it is in the batch and carries a truthy id. */
  lemma {:induction false} TaggedLayersMembers(batch: seq<Layer>)
    ensures forall l :: l in TaggedLayers(batch) <==> l in batch && HasTruthyTag(l)
  {
    if batch != [] {
      var init := batch[..|batch| - 1];
      TaggedLayersMembers(init);
      assert batch == init + [batch[|batch| - 1]];
      assert forall l :: l in batch <==> l in init || l == batch[|batch| - 1];
    }
  }

  /** The `eachLayer` loop visits one more layer. */
  lemma TaggedLayersSnoc(batch: seq<Layer>, i: nat)
    requires i < |batch|
    ensures TaggedLayers(batch[..i + 1]) ==
              TaggedLayers(batch[..i]) + if HasTruthyTag(batch[i]) then [batch[i]] else []
  {
    assert batch[..i + 1][..i] == batch[..i];
  }

  /** One `updateGeoData(id, geoJSON)` call: the layer's id and the envelope sent for it. */
  datatype UpdateCall = UpdateCall(id: Scalar, body: Envelope)

  function UpdateCallFor(l: Layer): (c: UpdateCall)
    requires HasTruthyTag(l)
    ensures Some(c.body) == CreateEnvelope(ToGeoJSON(l))
  {
    UpdateCall(Tag(l).value, UpdateEnvelope(ToGeoJSON(l)).value)
  }

  /** The `eachLayer` loop of the edit handler: one update call per tagged layer, in order. */
  method IssueUpdates(batch: seq<Layer>) returns (calls: seq<UpdateCall>)
    ensures |calls| == |TaggedLayers(batch)|
    ensures forall j :: 0 <= j < |calls| ==> calls[j] == UpdateCallFor(TaggedLayers(batch)[j])
  {
    calls := [];
    ghost var tagged: seq<Layer> := [];
    var i := 0;
    while i < |batch|
      invariant 0 <= i <= |batch|
      invariant tagged == TaggedLayers(batch[..i])
      invariant |calls| == |tagged|
      invariant forall j :: 0 <= j < |calls| ==> calls[j] == UpdateCallFor(tagged[j])
    {
      TaggedLayersSnoc(batch, i);
      var layer := batch[i];
      if HasTruthyTag(layer) {
        calls := calls + [UpdateCall(Tag(layer).value, UpdateEnvelope(ToGeoJSON(layer)).value)];
        tagged := tagged + [layer];
      }
      i := i + 1;
    }
    assert batch[..|batch|] == batch;
  }

  /** The `eachLayer` loop of the delete handler: one delete call per tagged layer, in order. */
  method IssueDeletes(batch: seq<Layer>) returns (ids: seq<Scalar>)
    ensures |ids| == |TaggedLayers(batch)|
    ensures forall j :: 0 <= j < |ids| ==> Some(ids[j]) == Tag(TaggedLayers(batch)[j]) && Truthy(ids[j])
  {
    ids := [];
    ghost var tagged: seq<Layer> := [];
    var i := 0;
    while i < |batch|
      invariant 0 <= i <= |batch|
      invariant tagged == TaggedLayers(batch[..i])
      invariant |ids| == |tagged|
      invariant forall j :: 0 <= j < |ids| ==> Some(ids[j]) == Tag(tagged[j]) && Truthy(ids[j])
    {
      TaggedLayersSnoc(batch, i);
      var layer := batch[i];
      if HasTruthyTag(layer) {
        ids := ids + [Tag(layer).value];
        tagged := tagged + [layer];
      }
      i := i + 1;
    }
    assert batch[..|batch|] == batch;
  }

  /** `Promise.all` over the delete calls resolves: no call was rejected. */
  predicate AllSucceeded(replies: seq<Reply<()>>)
  {
    forall j :: 0 <= j < |replies| ==> replies[j].Ok?
  }

  /** The feature group holds exactly one layer per drawn record, under consecutive keys
      from `first`, each made from its record. */
  ghost predicate DrawnGroup(group: map<nat, Layer>, drawn: seq<Record>, first: nat)
  {
    (forall k :: k in group <==> first <= k < first + |drawn|)
    && (forall j :: 0 <= j < |drawn| ==> RecordRenderable(drawn[j]))
    && (forall j :: 0 <= j < |drawn| ==> group[first + j] == MakeLayer(drawn[j], first + j))
  }

  /** Drawing one more renderable record under the next key keeps the group in step. */
  lemma DrawnGroupStep(group: map<nat, Layer>, drawn: seq<Record>, first: nat, item: Record)
    requires DrawnGroup(group, drawn, first) && RecordRenderable(item)
    ensures DrawnGroup(group[first + |drawn| := MakeLayer(item, first + |drawn|)], drawn + [item], first)
  {
  }

  /** The `forEach` of `renderGeoData`, starting from an empty group whose next stamp is
      `first`: each renderable record gets the next stamp and a layer tagged with its id, and
      stamping writes through the record's own `data` object. */
  method DrawRecords(data: seq<Record>, first: nat) returns (group: map<nat, Layer>, next: nat, stamped: seq<Record>)
    ensures next == first + |RenderedRecords(data)|
    ensures DrawnGroup(group, RenderedRecords(data), first)
    ensures |stamped| == |data|
    ensures forall k :: 0 <= k < |data| ==> stamped[k] == StampedRecord(data[k])
  {
    group := map[];
    next := first;
    stamped := [];
    ghost var drawn: seq<Record> := [];
    var i := 0;
    while i < |data|
      invariant 0 <= i <= |data|
      invariant drawn == RenderedRecords(data[..i])
      invariant next == first + |drawn|
      invariant DrawnGroup(group, drawn, first)
      invariant |stamped| == i
      invariant forall k :: 0 <= k < i ==> stamped[k] == StampedRecord(data[k])
    {
      RenderedRecordsSnoc(data, i);
      var item := data[i];
      if RecordRenderable(item) {
        DrawnGroupStep(group, drawn, first, item);
        group := group[next := MakeLayer(item, next)];
        next := next + 1;
        drawn := drawn + [item];
      }
      stamped := stamped + [StampedRecord(item)];
      i := i + 1;
    }
    assert data[..|data|] == data;
  }

  /** Every layer of the group that carries an id names a record of the store. */
  ghost predicate GroupNamesRecords(group: map<nat, Layer>, store: seq<Record>)
  {
    forall key :: key in group && Tag(group[key]).Some? ==>
      exists k :: 0 <= k < |store| && Tag(group[key]) == Some(Num(store[k].id))
  }

  /** A group drawn from records whose ids all occur in a store names only records of it. */
  lemma DrawnGroupNamesRecords(group: map<nat, Layer>, drawn: seq<Record>, first: nat, store: seq<Record>)
    requires DrawnGroup(group, drawn, first)
    requires forall j :: 0 <= j < |drawn| ==> exists k :: 0 <= k < |store| && store[k].id == drawn[j].id
    ensures GroupNamesRecords(group, store)
  {
    forall key | key in group && Tag(group[key]).Some?
      ensures exists k :: 0 <= k < |store| && Tag(group[key]) == Some(Num(store[k].id))
    {
      var j: nat := key - first;
      assert group[first + j] == MakeLayer(drawn[j], first + j);
      var k :| 0 <= k < |store| && store[k].id == drawn[j].id;
      assert Tag(group[key]) == Some(Num(store[k].id));
    }
  }

  /** Every record `renderGeoData` draws keeps its id in the list stamping returns. */
  lemma RenderedIdsStored(data: seq<Record>, stamped: seq<Record>)
    requires |stamped| == |data| && forall k :: 0 <= k < |data| ==> stamped[k].id == data[k].id
    ensures forall j :: 0 <= j < |RenderedRecords(data)| ==>
              exists k :: 0 <= k < |stamped| && stamped[k].id == RenderedRecords(data)[j].id
  {
    var drawn := RenderedRecords(data);
    forall j | 0 <= j < |drawn|
      ensures exists k :: 0 <= k < |stamped| && stamped[k].id == drawn[j].id
    {
      RenderedIdStored(data, stamped, j);
    }
  }

  lemma RenderedIdStored(data: seq<Record>, stamped: seq<Record>, j: nat)
    requires |stamped| == |data| && forall k :: 0 <= k < |data| ==> stamped[k].id == data[k].id
    requires j < |RenderedRecords(data)|
    ensures exists k :: 0 <= k < |stamped| && stamped[k].id == RenderedRecords(data)[j].id
  {
    var k := RenderedRecordSource(data, j);
    assert stamped[k].id == RenderedRecords(data)[j].id;
  }

  class Map {
    var store: seq<Record>
    var layers: map<nat, Layer>
    var nextKey: nat
    const storage: LocalStorage

    constructor (storage: LocalStorage, nextKey: nat)
      ensures this.storage == storage && this.nextKey == nextKey
      ensures store == [] && layers == map[]
    {
      this.storage := storage;
      this.nextKey := nextKey;
      store := [];
      layers := map[];
    }

    /** Every layer of the group that carries an id names a record of the store. */
    ghost predicate LayersNameRecords()
      reads this
    {
      GroupNamesRecords(layers, store)
    }

    /** `saveToLocalStorage`: the whole store overwrites the cache. */
    method SaveToLocalStorage(data: seq<Record>)
      modifies storage
      ensures storage.geoData == Some(data)
      ensures storage.authToken == old(storage.authToken)
    {
      storage.geoData := Some(data);
    }

    /** The effect on the `geoData` prop: a non-empty list replaces the store wholesale and
        is cached; an empty one changes nothing. The feature group is not redrawn. */
    method OnGeoDataChanged(geoData: seq<Record>)
      modifies this, storage
      ensures |geoData| > 0 ==> store == geoData && storage.geoData == Some(geoData)
      ensures |geoData| == 0 ==> store == old(store) && storage.geoData == old(storage.geoData)
      ensures layers == old(layers) && nextKey == old(nextKey)
      ensures storage.authToken == old(storage.authToken)
    {
      if |geoData| > 0 {
        store := geoData;
        SaveToLocalStorage(geoData);
      }
    }

    /** `renderGeoData`: clears the feature group, then draws one layer per renderable record,
        stamped with the record's id. Records without `data`, and those `L.geoJSON` rejects,
        are skipped. Returns the records as stamping leaves them. */
    method RenderGeoData(data: seq<Record>) returns (stamped: seq<Record>)
      modifies this
      ensures store == old(store)
      ensures nextKey == old(nextKey) + |RenderedRecords(data)|
      ensures DrawnGroup(layers, RenderedRecords(data), old(nextKey))
      ensures |stamped| == |data|
      ensures forall k :: 0 <= k < |data| ==> stamped[k] == StampedRecord(data[k])
    {
      var group, key;
      group, key, stamped := DrawRecords(data, nextKey);
      layers := group;
      nextKey := key;
    }

    /** `loadLocalGeoData`: when the cache holds a list, it becomes the store and is drawn. */
    method LoadLocalGeoData()
      modifies this
      ensures storage.geoData.None? ==> store == old(store) && layers == old(layers) && nextKey == old(nextKey)
      ensures storage.geoData.Some? ==>
                |store| == |storage.geoData.value|
                && (forall k :: 0 <= k < |store| ==> store[k] == StampedRecord(storage.geoData.value[k]))
                && nextKey == old(nextKey) + |RenderedRecords(storage.geoData.value)|
                && DrawnGroup(layers, RenderedRecords(storage.geoData.value), old(nextKey))
                && LayersNameRecords()
    {
      var storedData := storage.geoData;
      if storedData.Some? {
        var parsedData := storedData.value;
        store := parsedData;
        ghost var first := nextKey;
        var stamped := RenderGeoData(parsedData);
        store := stamped;
        RenderedIdsStored(parsedData, stamped);
        DrawnGroupNamesRecords(layers, RenderedRecords(parsedData), first, stamped);
      }
    }

    /** `handleCreated`: posts the drawn feature; on a reply carrying `geo_data.ID` the layer
        gets the stamped feature, the record is appended and the store is cached; otherwise
        the drawn layer is removed and store and cache are left alone. */
    method HandleCreated(drawn: Layer, reply: Reply<CreateBody>) returns (sent: Option<Envelope>)
      modifies this, storage
      ensures sent == CreateEnvelope(ToGeoJSON(drawn))
      ensures nextKey == old(nextKey) && storage.authToken == old(storage.authToken)
      ensures CreatedRecord(ToGeoJSON(drawn), reply).Some? ==>
                store == old(store) + [CreatedRecord(ToGeoJSON(drawn), reply).value]
                && storage.geoData == Some(store)
                && layers == old(layers)[drawn.key := drawn.(feature := CreatedRecord(ToGeoJSON(drawn), reply).value.data)]
      ensures CreatedRecord(ToGeoJSON(drawn), reply).None? ==>
                store == old(store) && storage.geoData == old(storage.geoData)
                && layers == old(layers) - {drawn.key}
      ensures CreatedRecord(ToGeoJSON(drawn), reply).Some? ==>
                Tag(layers[drawn.key]) == Some(Num(store[|store| - 1].id))
      ensures old(LayersNameRecords()) ==> LayersNameRecords()
    {
      var geoJSON := ToGeoJSON(drawn);
      // a layer's GeoJSON always has a geometry, so the envelope is always built
      sent := CreateEnvelope(geoJSON);
      match reply {
        case Err(_) =>
          layers := layers - {drawn.key};
        case Ok(result) =>
          if result.EmptyBody? || result.geoData.None? || geoJSON.properties.None? {
            // "Invalid server response", or stamping `properties.id` throws
            layers := layers - {drawn.key};
          } else {
            var id := result.geoData.value;
            var feature := Stamp(geoJSON, id);
            layers := layers[drawn.key := drawn.(feature := Some(feature))];
            var newGeoData := store + [Record(id, Some(feature))];
            ghost var before := store;
            store := newGeoData;
            SaveToLocalStorage(newGeoData);
            assert forall k :: 0 <= k < |before| ==> store[k] == before[k];
          }
      }
    }

    /** `handleEdited`: one update call per tagged layer, each rejection caught and dropped, so
        the reconciliation pass runs whatever the replies (one per call); if it completes, the
        store becomes the edited store and is cached. */
    method HandleEdited(batch: seq<Layer>, replies: seq<Reply<Option<UpdateBody>>>) returns (calls: seq<UpdateCall>)
      requires |replies| == |TaggedLayers(batch)|
      modifies this, storage
      ensures |calls| == |TaggedLayers(batch)|
      ensures forall j :: 0 <= j < |calls| ==> calls[j] == UpdateCallFor(TaggedLayers(batch)[j])
      ensures layers == old(layers) && nextKey == old(nextKey)
      ensures storage.authToken == old(storage.authToken)
      ensures EditedStore(old(store), batch).Some? ==>
                store == EditedStore(old(store), batch).value && storage.geoData == Some(store)
      ensures EditedStore(old(store), batch).None? ==>
                store == old(store) && storage.geoData == old(storage.geoData)
      ensures old(LayersNameRecords()) ==> LayersNameRecords()
    {
      calls := IssueUpdates(batch);
      // Each reply, accepted or not by `updateGeoData`'s check, is caught by the empty handler:
      // the join over `replies` always resolves, so nothing below depends on them.
      var updatedGeoData := EditedStore(store, batch);
      if updatedGeoData.Some? {
        EditKeepsIdsAndOrder(store, batch);
        ghost var before := store;
        store := updatedGeoData.value;
        assert forall k :: 0 <= k < |before| ==> store[k].id == before[k].id;
        SaveToLocalStorage(updatedGeoData.value);
      }
    }

    /** `handleDeleted`: one delete call per tagged layer; only when every call succeeded and
        the filter pass completes does the store lose the deleted records and get cached. */
    method HandleDeleted(batch: seq<Layer>, replies: seq<Reply<()>>) returns (ids: seq<Scalar>, committed: bool)
      requires |replies| == |TaggedLayers(batch)|
      modifies this, storage
      ensures |ids| == |TaggedLayers(batch)|
      ensures forall j :: 0 <= j < |ids| ==> Some(ids[j]) == Tag(TaggedLayers(batch)[j])
      ensures layers == old(layers) && nextKey == old(nextKey)
      ensures storage.authToken == old(storage.authToken)
      ensures committed <==> AllSucceeded(replies) && FilteredStore(old(store), batch).Some?
      ensures committed ==> store == FilteredStore(old(store), batch).value && storage.geoData == Some(store)
      ensures !committed ==> store == old(store) && storage.geoData == old(storage.geoData)
    {
      ids := IssueDeletes(batch);
      committed := false;
      if !AllSucceeded(replies) {
        return;
      }
      var updatedGeoData := FilteredStore(store, batch);
      if updatedGeoData.Some? {
        store := updatedGeoData.value;
        SaveToLocalStorage(updatedGeoData.value);
        committed := true;
      }
    }
  }

  /** Hydration does not keep the naming property: a layer drawn for record 7 stays in the
      group after the fetched list replaces the store with record 8 alone. */
  method HydrationCanBreakNaming() returns (m: Map)
    ensures m.store == [Record(8, None)]
    ensures !m.LayersNameRecords()
  {
    var storage := new LocalStorage(None, None);
    m := new Map(storage, 1);
    var drawn := Layer(1, Geometry("Point", Some(Position(0.0, 0.0)), None, None),
                       Some(Feature(None, Some(map["id" := Num(7)]))));
    m.store := [Record(7, None)];
    m.layers := map[1 := drawn];
    assert Tag(m.layers[1]) == Some(Num(m.store[0].id));
    assert m.LayersNameRecords();
    m.OnGeoDataChanged([Record(8, None)]);
    assert Tag(m.layers[1]) == Some(Num(7));
  }
}
