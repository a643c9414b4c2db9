/** The two pieces of process-wide state the dashboard writes in place. */
module Browser {
  import opened Wrappers
  import opened GeoData

  /** The browser's durable storage, reduced to the two keys the dashboard uses.
      The "geoData" entry is held as the records it serialises. */
  class LocalStorage {
    var geoData: Option<seq<Record>>
    var authToken: Option<string>

    constructor (geoData: Option<seq<Record>>, authToken: Option<string>)
      ensures this.geoData == geoData && this.authToken == authToken
    {
      this.geoData := geoData;
      this.authToken := authToken;
    }
  }

  /** The HTTP client's shared default `Authorization` header. */
  class HttpDefaults {
    var authorization: Option<string>

    constructor ()
      ensures authorization == None
    {
      authorization := None;
    }
  }
}
