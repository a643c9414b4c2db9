/** The remote sync client: request envelopes, reply checks, the bearer-header rule
    and the token bookkeeping of `login`/`logout` (src/services/api.jsx). */
module Api {
  import opened Wrappers
  import opened GeoData
  import opened Browser

  /** Why a request failed: no response at all, or an error status with, maybe,
      a `message` in the response body. */
  datatype HttpError = NoResponse | Status(code: int, message: Option<string>)

  /** The reply to one request: its body, or the error it was rejected with. */
  type Reply<T> = Result<T, HttpError>

  /** What a call throws: the transport's error, the "Invalid response from server"
      error the client raises itself, or a TypeError from reading a member of null. */
  datatype Failure = Http(cause: HttpError) | InvalidResponse | TypeError

  /** The `geometry` member of a request body: only the geometry's `type` and `coordinates`
      are copied into it. */
  datatype SentGeometry = SentGeometry(kind: string, coordinates: Option<Coords>)

  /** The `data` member of a create or update request body. */
  datatype Envelope = Envelope(kind: string, geometry: SentGeometry, properties: Props)

  /** `properties || {}`. */
  function PropertiesOrEmpty(p: Option<Props>): Props
  {
    if p.Some? then p.value else map[]
  }

  /** The body `createGeoData` posts; None when the feature has no geometry, where
      reading `geometry.type` throws before any request is made. */
  function CreateEnvelope(f: Feature): (e: Option<Envelope>)
    ensures e.Some? <==> f.geometry.Some?
    ensures e.Some? ==> e.value.kind == "Feature"
    ensures e.Some? ==> e.value.geometry.kind == f.geometry.value.kind
                        && e.value.geometry.coordinates == f.geometry.value.coordinates
    ensures e.Some? && f.properties.Some? ==> e.value.properties == f.properties.value
    ensures e.Some? && f.properties.None? ==> e.value.properties == map[]
  {
    if f.geometry.None? then None
    else Some(Envelope("Feature", SentGeometry(f.geometry.value.kind, f.geometry.value.coordinates),
                       PropertiesOrEmpty(f.properties)))
  }

  /** The body `updateGeoData` puts, built by its own copy of the same expression. */
  function UpdateEnvelope(f: Feature): (e: Option<Envelope>)
    ensures e == CreateEnvelope(f)
  {
    match f.geometry
    case None => None
    case Some(g) => Some(Envelope("Feature", SentGeometry(g.kind, g.coordinates), PropertiesOrEmpty(f.properties)))
  }

  /** The feature an envelope describes: a geometry with no member geometries and no box. */
  function EnvelopeFeature(e: Envelope): Feature
  {
    Feature(Some(Geometry(e.geometry.kind, e.geometry.coordinates, None, None)), Some(e.properties))
  }

  /** Building an envelope from the feature an envelope describes gives that envelope back. */
  lemma EnvelopeRoundTrip(e: Envelope)
    requires e.kind == "Feature"
    ensures CreateEnvelope(EnvelopeFeature(e)) == Some(e)
  {
  }

  /** Two features are sent as the same envelope if and only if their geometries have the same
      `type` and `coordinates` and their properties (absent counting as `{}`) are the same. */
  lemma EnvelopeDeterminedByContent(f: Feature, g: Feature)
    requires f.geometry.Some? && g.geometry.Some?
    ensures CreateEnvelope(f) == CreateEnvelope(g) <==>
              f.geometry.value.kind == g.geometry.value.kind
              && f.geometry.value.coordinates == g.geometry.value.coordinates
              && PropertiesOrEmpty(f.properties) == PropertiesOrEmpty(g.properties)
  {
    if CreateEnvelope(f) == CreateEnvelope(g) {
      assert CreateEnvelope(f).value.geometry == CreateEnvelope(g).value.geometry;
    }
  }

  /** What the envelope drops: a GeometryCollection's member geometries and any bounding box
      never reach the server, so a collection with contents is sent exactly as an empty one,
      with neither `coordinates` nor `geometries`. */
  lemma GeometryMembersNotSent(g: Geometry, p: Option<Props>)
    ensures CreateEnvelope(Feature(Some(g), p)) == CreateEnvelope(Feature(Some(g.(geometries := None, bbox := None)), p))
    ensures g.kind == "GeometryCollection" && g.coordinates.None? ==>
              CreateEnvelope(Feature(Some(g), p)).value.geometry == SentGeometry("GeometryCollection", None)
  {
  }

  /** The body of a successful update reply. */
  datatype UpdateBody = UpdateBody(id: Option<Scalar>)

  /** `updateGeoData`'s check of the reply: the body is returned only when it has a truthy
      `id`; a rejected request is re-thrown as it is. */
  function CheckUpdateReply(reply: Reply<Option<UpdateBody>>): (r: Result<UpdateBody, Failure>)
    ensures r.Ok? <==> reply.Ok? && reply.value.Some? && reply.value.value.id.Some? && Truthy(reply.value.value.id.value)
    ensures r.Ok? ==> r.value == reply.value.value
    ensures reply.Err? ==> r == Err(Http(reply.error))
    ensures reply.Ok? && r.Err? ==> r.error == InvalidResponse
  {
    match reply
    case Err(e) => Err(Http(e))
    case Ok(body) =>
      if body.Some? && body.value.id.Some? && Truthy(body.value.id.value) then Ok(body.value)
      else Err(InvalidResponse)
  }

  const BearerPrefix: string := "Bearer "

  function BearerHeader(token: string): string
  {
    BearerPrefix + token
  }

  /** `localStorage.getItem("auth_token")` is truthy. */
  predicate TokenPresent(stored: Option<string>)
  {
    stored.Some? && stored.value != ""
  }

  /** The request interceptor: the `Authorization` header a request goes out with, given the
      stored token and the header the request had before (the shared default). */
  function RequestAuthorization(stored: Option<string>, current: Option<string>): (h: Option<string>)
    ensures TokenPresent(stored) ==> h == Some(BearerPrefix + stored.value)
    ensures !TokenPresent(stored) ==> h == current
  {
    if TokenPresent(stored) then Some(BearerHeader(stored.value)) else current
  }

  /** The header names its token: the token is what follows "Bearer ", so two different
      tokens never produce the same header. */
  lemma BearerHeaderInjective(a: string, b: string)
    ensures BearerHeader(a)[..|BearerPrefix|] == BearerPrefix
    ensures BearerHeader(a)[|BearerPrefix|..] == a
    ensures BearerHeader(a) == BearerHeader(b) ==> a == b
  {
    if BearerHeader(a) == BearerHeader(b) {
      calc {
        a;
        BearerHeader(a)[|BearerPrefix|..];
        BearerHeader(b)[|BearerPrefix|..];
        b;
      }
    }
  }

  /** The body of a login reply. */
  datatype LoginBody = LoginBody(token: Option<string>, message: Option<string>)

  /** `login` in the client: stores the reply's token when it is truthy and returns the body;
      a body of null makes reading `.token` throw. */
  method Login(storage: LocalStorage, reply: Reply<Option<LoginBody>>) returns (r: Result<LoginBody, Failure>)
    modifies storage
    ensures storage.geoData == old(storage.geoData)
    ensures reply.Err? ==> r == Err(Http(reply.error)) && storage.authToken == old(storage.authToken)
    ensures reply.Ok? && reply.value.None? ==> r == Err(TypeError) && storage.authToken == old(storage.authToken)
    ensures reply.Ok? && reply.value.Some? ==> r == Ok(reply.value.value)
    ensures reply.Ok? && reply.value.Some? && TokenPresent(reply.value.value.token) ==>
              storage.authToken == reply.value.value.token
    ensures reply.Ok? && reply.value.Some? && !TokenPresent(reply.value.value.token) ==>
              storage.authToken == old(storage.authToken)
  {
    match reply {
      case Err(e) =>
        r := Err(Http(e));
      case Ok(body) =>
        if body.None? {
          r := Err(TypeError);
        } else {
          if TokenPresent(body.value.token) {
            storage.authToken := body.value.token;
          }
          r := Ok(body.value);
        }
    }
  }

  /** `logout` in the client: the stored token is removed before the request is sent,
      so it is gone whatever the reply. */
  method Logout(storage: LocalStorage, reply: Reply<()>) returns (r: Result<(), Failure>)
    modifies storage
    ensures storage.authToken == None
    ensures storage.geoData == old(storage.geoData)
    ensures r.Ok? <==> reply.Ok?
    ensures reply.Err? ==> r == Err(Http(reply.error))
  {
    storage.authToken := None;
    match reply {
      case Ok(_) => r := Ok(());
      case Err(e) => r := Err(Http(e));
    }
  }
}
