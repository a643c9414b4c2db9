/** The feature store's transformations, as the map component computes them:
    spread-append on create, `map` on edit, `filter` on delete, and the records
    the renderer draws (src/components/Dashboard/Map.jsx). */
module FeatureStore {
  import opened Wrappers
  import opened GeoData
  import opened Leaflet
  import opened Api

  /* ---------- Looking a record's id up among a gesture's layers ---------- */

  /** The callback `layer.feature.properties.id === id` returns false for this layer. */
  predicate Passes(l: Layer, id: int)
  {
    Readable(l) && Tag(l) != Some(Num(id))
  }

  /** Every one of the first `n` layers returns false. */
  predicate ClearBefore(batch: seq<Layer>, id: int, n: nat)
    requires n <= |batch|
  {
    forall j :: 0 <= j < n ==> Passes(batch[j], id)
  }

  /** What `find`/`some` over the batch do: stop at the first layer tagged `id`, reach the
      end, or throw at the first layer whose `feature.properties` cannot be read. */
  datatype Lookup = Found(at: nat) | NotFound | Throws(at: nat)

  lemma ClearBeforeShift(batch: seq<Layer>, id: int, n: nat)
    requires 0 < |batch| && n < |batch|
    requires Passes(batch[0], id) && ClearBefore(batch[1..], id, n)
    ensures ClearBefore(batch, id, n + 1)
  {
    forall j | 0 <= j < n + 1
      ensures Passes(batch[j], id)
    {
      if j > 0 {
        assert batch[j] == batch[1..][j - 1];
      }
    }
  }

  /** The scan `layers.find(layer => layer.feature.properties.id === id)`. */
  function FindLayer(batch: seq<Layer>, id: int): (m: Lookup)
    ensures m.Found? ==> m.at < |batch| && Readable(batch[m.at]) && Tag(batch[m.at]) == Some(Num(id))
                         && ClearBefore(batch, id, m.at)
    ensures m.Throws? ==> m.at < |batch| && !Readable(batch[m.at]) && ClearBefore(batch, id, m.at)
    ensures m.NotFound? ==> ClearBefore(batch, id, |batch|)
    decreases |batch|
  {
    if batch == [] then NotFound
    else if !Readable(batch[0]) then Throws(0)
    else if Tag(batch[0]) == Some(Num(id)) then Found(0)
    else
      match FindLayer(batch[1..], id)
      case Found(i) => ClearBeforeShift(batch, id, i); Found(i + 1)
      case Throws(i) => ClearBeforeShift(batch, id, i); Throws(i + 1)
      case NotFound => ClearBeforeShift(batch, id, |batch| - 1); NotFound
  }

  /** When every layer of the batch has readable properties the scan cannot throw, and it
      finds nothing exactly when no layer is tagged with the id. */
  lemma FindLayerOnReadableBatch(batch: seq<Layer>, id: int)
    requires forall j :: 0 <= j < |batch| ==> Readable(batch[j])
    ensures !FindLayer(batch, id).Throws?
    ensures FindLayer(batch, id).NotFound? <==> forall j :: 0 <= j < |batch| ==> Tag(batch[j]) != Some(Num(id))
  {
  }

  /* ---------- Edit: `localGeoData.map(...)` (lines 118-125) ---------- */

  /** One record after an edit: the first layer tagged with its id gives it that layer's
      GeoJSON; None when the scan throws. */
  function Reconcile(rec: Record, batch: seq<Layer>): (r: Option<Record>)
    ensures r.None? <==> FindLayer(batch, rec.id).Throws?
    ensures r.Some? ==> r.value.id == rec.id
    ensures FindLayer(batch, rec.id).NotFound? ==> r == Some(rec)
    ensures FindLayer(batch, rec.id).Found? ==>
              r == Some(rec.(data := Some(ToGeoJSON(batch[FindLayer(batch, rec.id).at]))))
  {
    match FindLayer(batch, rec.id)
    case Found(i) => Some(rec.(data := Some(ToGeoJSON(batch[i]))))
    case NotFound => Some(rec)
    case Throws(_) => None
  }

  /** The store after an edit gesture's reconciliation pass; None when the pass throws,
      in which case the handler leaves the store as it was. */
  function EditedStore(store: seq<Record>, batch: seq<Layer>): (r: Option<seq<Record>>)
    ensures r.Some? <==> forall k :: 0 <= k < |store| ==> Reconcile(store[k], batch).Some?
    ensures r.Some? ==> |r.value| == |store|
    ensures r.Some? ==> forall k :: 0 <= k < |store| ==> Reconcile(store[k], batch) == Some(r.value[k])
    decreases |store|
  {
    if store == [] then Some([])
    else
      var head := Reconcile(store[0], batch);
      var tail := EditedStore(store[1..], batch);
      if head.None? || tail.None? then None
      else
        assert forall k :: 1 <= k < |store| ==> store[k] == store[1..][k - 1];
        Some([head.value] + tail.value)
  }

  /** An edit keeps the store's length, order and ids; a record whose id tags a layer of the
      batch gets the first such layer's GeoJSON, every other record is untouched. */
  lemma {:induction false} EditKeepsIdsAndOrder(store: seq<Record>, batch: seq<Layer>)
    requires EditedStore(store, batch).Some?
    ensures |EditedStore(store, batch).value| == |store|
    ensures forall k :: 0 <= k < |store| ==> EditedStore(store, batch).value[k].id == store[k].id
    ensures forall k :: 0 <= k < |store| && FindLayer(batch, store[k].id).NotFound? ==>
              EditedStore(store, batch).value[k] == store[k]
    ensures forall k :: 0 <= k < |store| && FindLayer(batch, store[k].id).Found? ==>
              EditedStore(store, batch).value[k].data == Some(ToGeoJSON(batch[FindLayer(batch, store[k].id).at]))
  {
    var r := EditedStore(store, batch).value;
    forall k | 0 <= k < |store|
      ensures r[k].id == store[k].id
    {
      assert Reconcile(store[k], batch) == Some(r[k]);
    }
  }

  /** Editing twice with the same batch is editing once. */
  lemma {:induction false} EditIdempotent(store: seq<Record>, batch: seq<Layer>)
    requires EditedStore(store, batch).Some?
    ensures EditedStore(EditedStore(store, batch).value, batch) == EditedStore(store, batch)
  {
    var r := EditedStore(store, batch).value;
    EditKeepsIdsAndOrder(store, batch);
    forall k | 0 <= k < |r|
      ensures Reconcile(r[k], batch) == Some(r[k])
    {
      assert Reconcile(store[k], batch) == Some(r[k]);
    }
    var r2 := EditedStore(r, batch);
    assert r2.Some?;
    assert |r2.value| == |r|;
    forall k | 0 <= k < |r|
      ensures r2.value[k] == r[k]
    {
      assert Reconcile(r[k], batch) == Some(r2.value[k]);
    }
    assert r2.value == r;
  }

  /** After an edit, still no two records share an id. */
  lemma EditKeepsUniqueIds(store: seq<Record>, batch: seq<Layer>)
    requires UniqueIds(store) && EditedStore(store, batch).Some?
    ensures UniqueIds(EditedStore(store, batch).value)
  {
    EditKeepsIdsAndOrder(store, batch);
  }

  /* ---------- Delete: `localGeoData.filter(...)` (lines 153-158) ---------- */

  /** No record's lookup in the batch throws, so a pass over the whole store completes. */
  predicate ScanCompletes(store: seq<Record>, batch: seq<Layer>)
  {
    forall k :: 0 <= k < |store| ==> !FindLayer(batch, store[k].id).Throws?
  }

  /** The store after a delete gesture's filter pass: the records no layer of the batch is
      tagged with, in order; None when the pass throws. */
  function FilteredStore(store: seq<Record>, batch: seq<Layer>): (r: Option<seq<Record>>)
    ensures r.Some? <==> ScanCompletes(store, batch)
    ensures r.Some? ==> |r.value| <= |store|
    decreases |store|
  {
    if store == [] then Some([])
    else
      var m := FindLayer(batch, store[0].id);
      var tail := FilteredStore(store[1..], batch);
      assert forall k :: 1 <= k < |store| ==> store[k] == store[1..][k - 1];
      if m.Throws? || tail.None? then None
      else Some(if m.NotFound? then [store[0]] + tail.value else tail.value)
  }

  /** A record survives the delete pass if and only if it was in the store and the lookup
      of its id in the batch finds nothing. */
  lemma {:induction false} FilteredStoreMembers(store: seq<Record>, batch: seq<Layer>)
    requires FilteredStore(store, batch).Some?
    ensures forall x :: x in FilteredStore(store, batch).value <==> x in store && FindLayer(batch, x.id).NotFound?
    decreases |store|
  {
    if store != [] {
      FilteredStoreMembers(store[1..], batch);
      assert forall x :: x in store <==> x == store[0] || x in store[1..];
    }
  }

  /** One step of the filter: the head record's lookup, then the rest of the store. */
  lemma FilteredStoreStep(head: Record, rest: seq<Record>, batch: seq<Layer>)
    ensures FilteredStore([head] + rest, batch) ==
              var m := FindLayer(batch, head.id);
              if m.Throws? || FilteredStore(rest, batch).None? then None
              else Some(if m.NotFound? then [head] + FilteredStore(rest, batch).value
                        else FilteredStore(rest, batch).value)
  {
    assert ([head] + rest)[0] == head;
    assert ([head] + rest)[1..] == rest;
  }

  /** The filter distributes over concatenation, so it keeps the surviving records in their
      original order. */
  lemma {:induction false} FilterOfConcat(s: seq<Record>, t: seq<Record>, batch: seq<Layer>)
    ensures FilteredStore(s + t, batch) ==
              if FilteredStore(s, batch).Some? && FilteredStore(t, batch).Some?
              then Some(FilteredStore(s, batch).value + FilteredStore(t, batch).value)
              else None
    decreases |s|
  {
    if s == [] {
      assert s + t == t;
      if FilteredStore(t, batch).Some? {
        assert [] + FilteredStore(t, batch).value == FilteredStore(t, batch).value;
      }
    } else {
      var head, rest := s[0], s[1..];
      assert s == [head] + rest;
      assert s + t == [head] + (rest + t);
      FilterOfConcat(rest, t, batch);
      FilteredStoreStep(head, rest, batch);
      FilteredStoreStep(head, rest + t, batch);
      if FindLayer(batch, head.id).NotFound? && FilteredStore(rest, batch).Some? && FilteredStore(t, batch).Some? {
        var a, b := FilteredStore(rest, batch).value, FilteredStore(t, batch).value;
        assert [head] + (a + b) == ([head] + a) + b;
      }
    }
  }

  /** When every deleted layer's properties can be read, no record survives whose id tags a
      deleted layer, and every other record does. */
  lemma DeleteRemovesExactlyTagged(store: seq<Record>, batch: seq<Layer>)
    requires forall j :: 0 <= j < |batch| ==> Readable(batch[j])
    ensures FilteredStore(store, batch).Some?
    ensures forall x :: x in FilteredStore(store, batch).value <==>
              x in store && forall j :: 0 <= j < |batch| ==> Tag(batch[j]) != Some(Num(x.id))
  {
    forall k | 0 <= k < |store|
      ensures !FindLayer(batch, store[k].id).Throws?
    {
      FindLayerOnReadableBatch(batch, store[k].id);
    }
    forall x | x in store
      ensures FindLayer(batch, x.id).NotFound? <==> forall j :: 0 <= j < |batch| ==> Tag(batch[j]) != Some(Num(x.id))
    {
      FindLayerOnReadableBatch(batch, x.id);
    }
    FilteredStoreMembers(store, batch);
  }

  /** After a delete, still no two records share an id. */
  lemma {:induction false} DeleteKeepsUniqueIds(store: seq<Record>, batch: seq<Layer>)
    requires UniqueIds(store) && FilteredStore(store, batch).Some?
    ensures UniqueIds(FilteredStore(store, batch).value)
    decreases |store|
  {
    if store != [] {
      var tail := FilteredStore(store[1..], batch);
      assert tail.Some?;
      DeleteKeepsUniqueIds(store[1..], batch);
      FilteredStoreMembers(store[1..], batch);
      forall x | x in tail.value
        ensures x.id != store[0].id
      {
        var k :| 0 <= k < |store[1..]| && store[1..][k] == x;
        assert store[k + 1] == x;
      }
    }
  }

  /** Deleting twice with the same batch is deleting once. */
  lemma {:induction false} DeleteIdempotent(store: seq<Record>, batch: seq<Layer>)
    requires FilteredStore(store, batch).Some?
    ensures FilteredStore(FilteredStore(store, batch).value, batch) == FilteredStore(store, batch)
    decreases |store|
  {
    if store != [] {
      var tail := FilteredStore(store[1..], batch).value;
      DeleteIdempotent(store[1..], batch);
      if FindLayer(batch, store[0].id).NotFound? {
        assert ([store[0]] + tail)[0] == store[0];
        assert ([store[0]] + tail)[1..] == tail;
      }
    }
  }

  /* ---------- Create: `[...localGeoData, { id, data: geoJSON }]` (lines 77-87) ---------- */

  /** The body of a create reply: empty, or an object whose `geo_data` (when present) carries `ID`. */
  datatype CreateBody = EmptyBody | CreateBody(geoData: Option<int>)

  /** The record a create gesture commits, or None when the handler rolls back: the request
      threw, the reply is empty or lacks `geo_data`, or the feature has no properties to stamp. */
  function CreatedRecord(geoJSON: Feature, reply: Reply<CreateBody>): (r: Option<Record>)
    ensures r.Some? <==> geoJSON.geometry.Some? && reply.Ok? && reply.value.CreateBody?
                         && reply.value.geoData.Some? && geoJSON.properties.Some?
    ensures r.Some? ==> r.value.id == reply.value.geoData.value
    ensures r.Some? ==> r.value.data.Some? && r.value.data.value.geometry == geoJSON.geometry
    ensures r.Some? ==> r.value.data.value.properties.Some?
    ensures r.Some? ==> "id" in r.value.data.value.properties.value
                         && r.value.data.value.properties.value["id"] == Num(r.value.id)
  {
    if CreateEnvelope(geoJSON).None? then None
    else match reply
      case Err(_) => None
      case Ok(body) =>
        if body.EmptyBody? || body.geoData.None? || geoJSON.properties.None? then None
        else Some(Record(body.geoData.value, Some(Stamp(geoJSON, body.geoData.value))))
  }

  /** What the store keeps of a created feature is what was sent, with the server's id
      added to its properties. */
  lemma CreatedRecordMatchesRequest(geoJSON: Feature, reply: Reply<CreateBody>)
    requires CreatedRecord(geoJSON, reply).Some?
    ensures var rec := CreatedRecord(geoJSON, reply).value;
            var sent := CreateEnvelope(geoJSON).value;
            CreateEnvelope(rec.data.value) == Some(sent.(properties := sent.properties["id" := Num(rec.id)]))
  {
  }

  /** Appending a record whose id the store does not hold keeps ids unique. */
  lemma AppendKeepsUniqueIds(store: seq<Record>, rec: Record)
    requires UniqueIds(store)
    requires forall k :: 0 <= k < |store| ==> store[k].id != rec.id
    ensures UniqueIds(store + [rec])
  {
  }

  /* ---------- Rendering (lines 45-62) ---------- */

  predicate RecordRenderable(rec: Record)
  {
    rec.data.Some? && Renderable(rec.data.value)
  }

  /** The records `renderGeoData` draws, in order: those with `data` that Leaflet accepts. */
  function RenderedRecords(data: seq<Record>): (r: seq<Record>)
    ensures |r| <= |data|
    ensures forall j :: 0 <= j < |r| ==> RecordRenderable(r[j])
  {
    if data == [] then []
    else RenderedRecords(data[..|data| - 1]) + if RecordRenderable(data[|data| - 1]) then [data[|data| - 1]] else []
  }

  /** A record is drawn if and only if it is in the list and Leaflet accepts its `data`. */
  lemma {:induction false} RenderedRecordsMembers(data: seq<Record>)
    ensures forall x :: x in RenderedRecords(data) <==> x in data && RecordRenderable(x)
  {
    if data != [] {
      var init := data[..|data| - 1];
      RenderedRecordsMembers(init);
      assert data == init + [data[|data| - 1]];
      assert forall x :: x in data <==> x in init || x == data[|data| - 1];
    }
  }

  /** Each rendered record is one of the given records: the one at the returned index. */
  lemma {:induction false} RenderedRecordSource(data: seq<Record>, j: nat) returns (k: nat)
    requires j < |RenderedRecords(data)|
    ensures k < |data| && data[k] == RenderedRecords(data)[j]
  {
    var init := data[..|data| - 1];
    if j < |RenderedRecords(init)| {
      k := RenderedRecordSource(init, j);
    } else {
      k := |data| - 1;
    }
  }

  /** Extending the input by one record extends the rendered list by that record when it
      is renderable. */
  lemma RenderedRecordsSnoc(data: seq<Record>, i: nat)
    requires i < |data|
    ensures RenderedRecords(data[..i + 1]) ==
              RenderedRecords(data[..i]) + if RecordRenderable(data[i]) then [data[i]] else []
  {
    assert data[..i + 1][..i] == data[..i];
  }

  /** Rendering distributes over concatenation: records are drawn in the list's order, and
      what is drawn for one part of the list does not depend on the other. */
  lemma {:induction false} RenderedRecordsOfConcat(s: seq<Record>, t: seq<Record>)
    ensures RenderedRecords(s + t) == RenderedRecords(s) + RenderedRecords(t)
    decreases |t|
  {
    if t == [] {
      assert s + t == s;
      assert RenderedRecords(s) + [] == RenderedRecords(s);
    } else {
      var init, last := t[..|t| - 1], t[|t| - 1];
      var rest := if RecordRenderable(last) then [last] else [];
      assert (s + t)[..|s + t| - 1] == s + init;
      assert (s + t)[|s + t| - 1] == last;
      RenderedRecordsOfConcat(s, init);
      assert RenderedRecords(s + t) == RenderedRecords(s + init) + rest;
      assert RenderedRecords(t) == RenderedRecords(init) + rest;
      assert (RenderedRecords(s) + RenderedRecords(init)) + rest
          == RenderedRecords(s) + (RenderedRecords(init) + rest);
    }
  }

  /** The layer drawn for a record: its geometry, its feature with `properties.id` stamped. */
  function MakeLayer(rec: Record, key: nat): (l: Layer)
    requires RecordRenderable(rec)
    ensures l.key == key && Readable(l) && Tag(l) == Some(Num(rec.id))
  {
    Layer(key, rec.data.value.geometry.value, Some(Stamp(rec.data.value, rec.id)))
  }

  /** A record as it is after rendering: stamping writes through `layer.feature`, which is the
      record's own `data` object. */
  function StampedRecord(rec: Record): (r: Record)
    ensures r.id == rec.id
    ensures RecordRenderable(rec) ==> r.data == MakeLayer(rec, 0).feature
    ensures !RecordRenderable(rec) ==> r == rec
  {
    if RecordRenderable(rec) then rec.(data := Some(Stamp(rec.data.value, rec.id))) else rec
  }

  /** After rendering, with unique ids, the id a drawn layer carries names exactly one
      record of the list. */
  lemma RenderedLayerNamesOneRecord(data: seq<Record>, j: nat, key: nat)
    requires UniqueIds(data) && j < |RenderedRecords(data)|
    ensures exists k :: 0 <= k < |data| && Tag(MakeLayer(RenderedRecords(data)[j], key)) == Some(Num(data[k].id))
    ensures forall k, k' :: 0 <= k < |data| && 0 <= k' < |data|
              && Tag(MakeLayer(RenderedRecords(data)[j], key)) == Some(Num(data[k].id))
              && Tag(MakeLayer(RenderedRecords(data)[j], key)) == Some(Num(data[k'].id))
              ==> k == k'
  {
    var rec := RenderedRecords(data)[j];
    RenderedRecordsMembers(data);
    assert rec in RenderedRecords(data);
    var k :| 0 <= k < |data| && data[k] == rec;
    assert Tag(MakeLayer(rec, key)) == Some(Num(data[k].id));
  }
}
