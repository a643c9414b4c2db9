/** The GeoJSON values the dashboard passes around (sections 3.1-3.2 of RFC 7946)
    and the feature store's record. Coordinates are opaque to every operation. */
module GeoData {
  import opened Wrappers

  /** A position or a nested array of positions; never inspected. */
  datatype Coords = Position(lng: real, lat: real) | Nested(items: seq<Coords>)

  /** A geometry object (section 3.1 of RFC 7946): its `type`, its `coordinates` (absent on a
      GeometryCollection), the member geometries of a GeometryCollection (section 3.1.8) and
      an optional bounding box (section 5). */
  datatype Geometry = Geometry(kind: string, coordinates: Option<Coords>,
                               geometries: Option<seq<Geometry>>, bbox: Option<seq<real>>)

  /** A scalar JSON value held in a feature's `properties`. */
  datatype Scalar = Num(n: int) | Str(s: string) | Bool(b: bool) | Null

  type Props = map<string, Scalar>

  /** A GeoJSON Feature. Either member may be absent (or null). */
  datatype Feature = Feature(geometry: Option<Geometry>, properties: Option<Props>)

  /** One entry of the feature store: the server-assigned id and, normally, the feature. */
  datatype Record = Record(id: int, data: Option<Feature>)

  /** JavaScript truthiness of a scalar. */
  predicate Truthy(v: Scalar)
  {
    match v
    case Num(n) => n != 0
    case Str(s) => s != ""
    case Bool(b) => b
    case Null => false
  }

  /** No two records of the store share an id. */
  predicate UniqueIds(store: seq<Record>)
  {
    forall i, j :: 0 <= i < j < |store| ==> store[i].id != store[j].id
  }

  /** The feature with its `properties.id` set to `id`, as `feature.properties.id = id` does. */
  function Stamp(f: Feature, id: int): (g: Feature)
    requires f.properties.Some?
    ensures g.geometry == f.geometry && g.properties.Some?
    ensures "id" in g.properties.value && g.properties.value["id"] == Num(id)
    ensures forall k :: k in f.properties.value && k != "id" ==>
              k in g.properties.value && g.properties.value[k] == f.properties.value[k]
    ensures g.properties.value.Keys == f.properties.value.Keys + {"id"}
  {
    f.(properties := Some(f.properties.value["id" := Num(id)]))
  }
}
