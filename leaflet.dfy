/** The slice of Leaflet the dashboard's handlers depend on: a layer, the id tag the
    handlers read from it, its GeoJSON export and which features it can draw. */
module Leaflet {
  import opened Wrappers
  import opened GeoData

  /** A layer of the feature group. `key` is Leaflet's stamp (the group's key for it),
      `geometry` its current shape, `feature` the GeoJSON object attached to it, if any. */
  datatype Layer = Layer(key: nat, geometry: Geometry, feature: Option<Feature>)

  /** `layer.feature?.properties`. */
  function PropsOf(l: Layer): Option<Props>
  {
    if l.feature.Some? then l.feature.value.properties else None
  }

  /** `layer.feature.properties.id` can be read without throwing. */
  predicate Readable(l: Layer)
  {
    PropsOf(l).Some?
  }

  /** `layer.feature?.properties?.id`: None when undefined. */
  function Tag(l: Layer): Option<Scalar>
  {
    match PropsOf(l)
    case None => None
    case Some(p) => if "id" in p then Some(p["id"]) else None
  }

  /** The layer carries a truthy id, so the handlers issue a server call for it. */
  predicate HasTruthyTag(l: Layer)
  {
    Tag(l).Some? && Truthy(Tag(l).value)
  }

  /** `layer.toGeoJSON()`: the current geometry, with the attached feature's properties
      (an empty object for a layer that has no feature yet). */
  function ToGeoJSON(l: Layer): (f: Feature)
    ensures f.geometry == Some(l.geometry)
    ensures l.feature.None? ==> f.properties == Some(map[])
    ensures l.feature.Some? ==> f.properties == PropsOf(l)
  {
    Feature(Some(l.geometry), if l.feature.Some? then l.feature.value.properties else Some(map[]))
  }

  /** The geometry types `L.geoJSON` turns into a layer; any other type makes it throw. */
  const LayerKinds: set<string> :=
    {"Point", "MultiPoint", "LineString", "MultiLineString", "Polygon", "MultiPolygon", "GeometryCollection"}

  /** `L.geoJSON` can build a layer from the geometry: a known type, with `geometries` for a
      GeometryCollection and `coordinates` for every other type (reading either when absent
      throws). */
  predicate Drawable(g: Geometry)
  {
    g.kind in LayerKinds
    && (if g.kind == "GeometryCollection" then g.geometries.Some? else g.coordinates.Some?)
  }

  /** `L.geoJSON(f)` yields one layer and stamping its `properties.id` does not throw. */
  predicate Renderable(f: Feature)
  {
    f.geometry.Some? && Drawable(f.geometry.value) && f.properties.Some?
  }
}
