/** The dashboard (src/components/Dashboard/Dashboard.jsx): the list it fetches, the 401
    rule that ends the session, and the bulk importer for uploaded GeoJSON. */
module Dashboard {
  import opened Wrappers
  import opened GeoData
  import opened Browser
  import opened Api
  import opened AuthContext

  /** A parsed upload: its top-level `type`, its `features` array and, for a lone Feature,
      its own `geometry` and `properties`. A document that is not an object has no `type`. */
  datatype Document = Document(kind: Option<string>, features: Option<seq<Feature>>,
                               geometry: Option<Geometry>, properties: Option<Props>)

  /** The outcome of `JSON.parse` on the file's text. */
  datatype Parsed = Unparsable | Parsed(doc: Document)

  function AsFeature(d: Document): Feature
  {
    Feature(d.geometry, d.properties)
  }

  /** The features an upload sends through `createGeoData`, in order; None when nothing is
      sent and no re-list follows (a parse failure, a FeatureCollection without a `features`
      array, any type other than FeatureCollection and Feature). */
  function ImportBatch(p: Parsed): (b: Option<seq<Feature>>)
    ensures b.Some? <==> p.Parsed? && (p.doc.kind == Some("Feature")
                                        || (p.doc.kind == Some("FeatureCollection") && p.doc.features.Some?))
    ensures b.Some? && p.doc.kind == Some("FeatureCollection") ==> b.value == p.doc.features.value
    ensures b.Some? && p.doc.kind == Some("Feature") ==> b.value == [AsFeature(p.doc)]
  {
    match p
    case Unparsable => None
    case Parsed(doc) =>
      if doc.kind == Some("FeatureCollection") then doc.features
      else if doc.kind == Some("Feature") then Some([AsFeature(doc)])
      else None
  }

  /** The create requests a list of features issues, in order: one per feature that has a
      geometry (for the others building the envelope throws and is caught). */
  function CreateRequests(fs: seq<Feature>): (r: seq<Envelope>)
    ensures |r| <= |fs|
  {
    if fs == [] then []
    else
      var last := fs[|fs| - 1];
      CreateRequests(fs[..|fs| - 1]) + if last.geometry.Some? then [CreateEnvelope(last).value] else []
  }

  /** The requests of a concatenation are the concatenation of the requests: a feature whose
      create fails never changes the requests issued for the features after it. */
  lemma {:induction false} CreateRequestsOfConcat(fs: seq<Feature>, gs: seq<Feature>)
    ensures CreateRequests(fs + gs) == CreateRequests(fs) + CreateRequests(gs)
    decreases |gs|
  {
    if gs == [] {
      assert fs + gs == fs;
    } else {
      var init := gs[..|gs| - 1];
      var last := gs[|gs| - 1];
      assert (fs + gs)[..|fs + gs| - 1] == fs + init;
      assert (fs + gs)[|fs + gs| - 1] == last;
      CreateRequestsOfConcat(fs, init);
    }
  }

  /** A feature without a geometry issues no request and leaves the requests of the features
      before and after it as they would be without it. */
  lemma {:induction false} SkippedFeatureIssuesNothing(fs: seq<Feature>, f: Feature, gs: seq<Feature>)
    requires f.geometry.None?
    ensures CreateRequests(fs + [f] + gs) == CreateRequests(fs) + CreateRequests(gs)
  {
    assert [f][..0] == [];
    assert CreateRequests([f]) == [];
    CreateRequestsOfConcat(fs, [f]);
    assert CreateRequests(fs + [f]) == CreateRequests(fs);
    CreateRequestsOfConcat(fs + [f], gs);
  }

  /** When every feature has a geometry, exactly one create per feature is issued, in order. */
  lemma {:induction false} OneRequestPerFeature(fs: seq<Feature>)
    requires forall i :: 0 <= i < |fs| ==> fs[i].geometry.Some?
    ensures |CreateRequests(fs)| == |fs|
    ensures forall i :: 0 <= i < |fs| ==> Some(CreateRequests(fs)[i]) == CreateEnvelope(fs[i])
    decreases |fs|
  {
    if fs != [] {
      var init := fs[..|fs| - 1];
      assert forall i :: 0 <= i < |init| ==> init[i] == fs[i];
      OneRequestPerFeature(init);
    }
  }

  /** The upload loop: `createGeoData` once per feature, one at a time, each failure caught. */
  method IssueCreates(features: seq<Feature>) returns (creates: seq<Envelope>)
    ensures creates == CreateRequests(features)
  {
    creates := [];
    var i := 0;
    while i < |features|
      invariant 0 <= i <= |features|
      invariant creates == CreateRequests(features[..i])
    {
      assert features[..i + 1][..i] == features[..i];
      var body := CreateEnvelope(features[i]);
      if body.Some? {
        creates := creates + [body.value];
      }
      i := i + 1;
    }
    assert features[..|features|] == features;
  }

  /** A list error the dashboard treats as the end of the session. */
  predicate Unauthorized(reply: Reply<seq<Record>>)
  {
    reply.Err? && reply.error.Status? && reply.error.code == 401
  }

  class Dashboard {
    var geoData: seq<Record>
    var route: string
    const auth: AuthProvider

    constructor (auth: AuthProvider, route: string)
      ensures this.auth == auth && this.route == route && geoData == []
    {
      this.auth := auth;
      this.route := route;
      geoData := [];
    }

    /** `handleLogout`: the provider's logout, then the login page. */
    method HandleLogout()
      modifies this, auth, auth.storage, auth.http
      ensures route == "/login" && geoData == old(geoData)
      ensures !auth.isAuthenticated && auth.storage.authToken == None && auth.http.authorization == None
      ensures auth.isLoading == old(auth.isLoading) && auth.error == old(auth.error)
      ensures auth.storage.geoData == old(auth.storage.geoData)
    {
      auth.Logout();
      route := "/login";
    }

    /** `fetchGeoData`: a listed reply replaces `geoData`; a 401 ends the session; any other
        error changes nothing. */
    method FetchGeoData(reply: Reply<seq<Record>>)
      modifies this, auth, auth.storage, auth.http
      ensures reply.Ok? ==> geoData == reply.value && route == old(route) && unchanged(auth, auth.storage, auth.http)
      ensures Unauthorized(reply) ==>
                geoData == old(geoData) && route == "/login"
                && !auth.isAuthenticated && auth.storage.authToken == None && auth.http.authorization == None
                && auth.isLoading == old(auth.isLoading) && auth.error == old(auth.error)
                && auth.storage.geoData == old(auth.storage.geoData)
      ensures reply.Err? && !Unauthorized(reply) ==>
                geoData == old(geoData) && route == old(route) && unchanged(auth, auth.storage, auth.http)
    {
      match reply {
        case Ok(data) =>
          geoData := data;
        case Err(e) =>
          if e.Status? && e.code == 401 {
            HandleLogout();
          }
      }
    }

    /** `handleFileUpload` on a read file: a FeatureCollection creates each feature in turn and a
        Feature creates itself, and exactly one re-list follows; any other document creates
        nothing and is not followed by a re-list. `createReplies` holds one reply per create
        sent. Each rejection is caught inside the loop, so nothing below depends on them. */
    method HandleFileUpload(parsed: Parsed, createReplies: seq<Reply<()>>, listReply: Reply<seq<Record>>)
      returns (creates: seq<Envelope>, refetched: bool)
      requires |createReplies| == if ImportBatch(parsed).Some? then |CreateRequests(ImportBatch(parsed).value)| else 0
      modifies this, auth, auth.storage, auth.http
      ensures refetched <==> ImportBatch(parsed).Some?
      ensures ImportBatch(parsed).Some? ==> creates == CreateRequests(ImportBatch(parsed).value)
      ensures ImportBatch(parsed).None? ==>
                creates == [] && geoData == old(geoData) && route == old(route)
                && unchanged(auth, auth.storage, auth.http)
      ensures refetched && listReply.Ok? ==>
                geoData == listReply.value && route == old(route) && unchanged(auth, auth.storage, auth.http)
      ensures refetched && Unauthorized(listReply) ==>
                geoData == old(geoData) && route == "/login" && !auth.isAuthenticated
                && auth.storage.authToken == None && auth.http.authorization == None
                && auth.isLoading == old(auth.isLoading) && auth.error == old(auth.error)
                && auth.storage.geoData == old(auth.storage.geoData)
      ensures refetched && listReply.Err? && !Unauthorized(listReply) ==>
                geoData == old(geoData) && route == old(route) && unchanged(auth, auth.storage, auth.http)
    {
      creates := [];
      refetched := false;
      if parsed.Unparsable? {
        return;
      }
      var doc := parsed.doc;
      if doc.kind == Some("FeatureCollection") {
        if doc.features.None? {
          // iterating a missing `features` throws; the outer catch ends the upload
          return;
        }
        creates := IssueCreates(doc.features.value);
      } else if doc.kind == Some("Feature") {
        creates := IssueCreates([AsFeature(doc)]);
      } else {
        // "Invalid GeoJSON format"
        return;
      }
      FetchGeoData(listReply);
      refetched := true;
    }
  }
}
