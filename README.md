# Geodata dashboard: record-keeping model

A Dafny model of the record-keeping core of a React/Leaflet dashboard for drawing, editing and
storing GeoJSON features against a remote API:

- **Feature store reconciler** (`Map.jsx`). The store holds `{id, data}` records. A copy of the
  store is cached under the local-storage key "geoData". Three draw gestures rewrite the store:
  - create appends one record, or rolls back;
  - edit maps new geometry onto matching records;
  - delete filters records out, but only when every delete call succeeded.

  After each of these, the whole store is written to the cache. Hydration replaces the store
  wholesale. Rendering draws the records and stamps each layer with its record's id.
- **Bulk importer** (`Dashboard.jsx`). It dispatches on the top-level `type` of an uploaded
  document: a Feature (section 3.2 of RFC 7946) or a FeatureCollection (section 3.3 of RFC 7946).
  It creates the features one at a time, tolerating each failure, and then re-lists. A 401 on
  the list ends the session.
- **Remote sync client** (`api.jsx`). It builds the `{type: "Feature", geometry: {type,
  coordinates}, properties}` envelope and checks the update reply. Only the geometry's `type` and
  `coordinates` are copied into the envelope. A GeometryCollection's `geometries` (section 3.1.8
  of RFC 7946) and any `bbox` are therefore never sent. It stores the token on login,
  clears it on logout and adds a bearer header to requests.
- **Session gate** (`AuthContext.jsx`). A state machine over `isAuthenticated`, `isLoading` and
  `error`, with transitions for the initial token check, login and logout. These transitions also
  write the stored token and the default `Authorization` header.

Network replies are inputs: `Reply<T>` is `Ok(body)` or `Err(HttpError)`, and a batch takes one
reply per call it issues. A parsed upload is a `Parsed` value, with parse failure as its own case.
Local storage and the HTTP client's shared default headers are the classes `Browser.LocalStorage`
and `Browser.HttpDefaults`. Methods that write them name them in `modifies`. The feature group is
a map from Leaflet's layer stamp to the layer, as Leaflet's `LayerGroup` keeps it.

Files:
- `wrappers.dfy`: Option and Result.
- `geodata.dfy`: GeoJSON values and the record.
- `leaflet.dfy`: a layer, its id tag, `toGeoJSON`, and which features Leaflet can draw.
- `browser.dfy`: local storage and the default headers.
- `api.dfy`: the remote sync client.
- `feature_store.dfy`: the pure store transformations and their lemmas.
- `map_component.dfy`: the `Map` class and its handlers.
- `auth_context.dfy`: the `AuthProvider` class.
- `dashboard.dfy`: the `Dashboard` class and the importer.

Behaviour of the code that the model keeps as it is:
- A delete batch removes records only after every delete call has succeeded. If any call fails,
  store and cache stay unchanged; nothing is removed optimistically (Map.jsx:142-145, 161-163).
- Hydration from the fetched list replaces and caches the store, but it does not redraw the
  feature group (Map.jsx:25-30). Only loading from the cache draws (Map.jsx:32-39).
- The naming property says every drawn layer that carries an id names a record of the store
  (`MapComponent.Map.LayersNameRecords`).
  - Loading from the cache establishes it.
  - Create and edit preserve it.
  - Hydration from the fetched list can break it, because the store is replaced while the
    layers stay (`MapComponent.HydrationCanBreakNaming`).
  - It is not stated for delete, where removing the deleted layers is the draw control's job.
- The record lookup in the edit and delete passes reads `layer.feature.properties.id` without
  optional chaining (Map.jsx:121, 157). A layer without feature properties therefore makes the
  pass throw, and the handler then leaves store and cache alone. `FeatureStore.FindLayer` models
  this as its `Throws` outcome.
- The dashboard's 401 path calls the session gate's `logout` and then goes to "/login". The
  client's `logout` import is shadowed at Dashboard.jsx:9, so no logout request is sent.

## Model

| member | source | states |
|---|---|---|
| `Api.CreateEnvelope` | src/services/api.jsx:45-54 | The envelope exists exactly when the feature has a geometry; its type is always "Feature", its geometry carries the input geometry's `type` and `coordinates`, and its properties are the input's or `{}` when absent |
| `Api.UpdateEnvelope` | src/services/api.jsx:65-74 | The update body equals the create body for every feature |
| `Api.EnvelopeRoundTrip` | src/services/api.jsx:45-54 | Building an envelope from the feature an envelope describes returns that envelope |
| `Api.GeometryMembersNotSent` | src/services/api.jsx:48-49 | A geometry's member geometries and bounding box do not affect the envelope; a GeometryCollection without `coordinates` is sent as a bare `{type: "GeometryCollection"}` |
| `Api.EnvelopeDeterminedByContent` | src/services/api.jsx:45-54 | Two features give the same envelope if and only if their geometries have the same `type` and `coordinates` and they have the same properties, with absent properties counting as `{}` |
| `Api.CheckUpdateReply` | src/services/api.jsx:85-89 | The update succeeds, returning the body, if and only if the reply has a body with a truthy `id`; any other reply fails with "Invalid response from server", and a rejected request is re-thrown unchanged |
| `Api.RequestAuthorization` | src/services/api.jsx:12-15 | A request carries "Bearer " + token exactly when a truthy token is stored; otherwise its header is left as it was |
| `Api.BearerHeaderInjective` | src/services/api.jsx:14 | The header starts with "Bearer ", the rest is the token, and different tokens give different headers |
| `Api.Login` | src/services/api.jsx:25-31 | The token is stored only when the reply body has a truthy token, and the stored token is otherwise unchanged; a null body throws; a failed request is re-thrown |
| `Api.Logout` | src/services/api.jsx:33-37 | The stored token is cleared whatever the reply, and the result fails exactly when the request failed |
| `GeoData.Stamp` | src/components/Dashboard/Map.jsx:82-83 | Setting `properties.id` changes only that key and keeps the geometry |
| `Leaflet.ToGeoJSON` | src/components/Dashboard/Map.jsx:72 | A layer's GeoJSON always has its current geometry; its properties are the attached feature's, or `{}` for a layer with no feature |
| `FeatureStore.FindLayer` | src/components/Dashboard/Map.jsx:119-121 | The lookup stops at the first layer tagged with the id, or reaches the end, or throws at the first layer whose properties cannot be read; every layer before the stopping point was readable and did not match |
| `FeatureStore.FindLayerOnReadableBatch` | src/components/Dashboard/Map.jsx:155-157 | When every layer is readable, the lookup never throws, and it finds nothing exactly when no layer carries the id |
| `FeatureStore.Reconcile` | src/components/Dashboard/Map.jsx:118-125 | One record keeps its id; it takes the GeoJSON of the first layer tagged with its id, or stays as it was when no layer is tagged with it |
| `FeatureStore.EditedStore` | src/components/Dashboard/Map.jsx:118-125 | The edit pass completes exactly when no lookup throws; it then keeps the length, and each position holds that record's reconciled version |
| `FeatureStore.EditKeepsIdsAndOrder` | src/components/Dashboard/Map.jsx:118-125 | An edit keeps the length, order and ids; a matched record gets its first matching layer's geometry; every other record is untouched |
| `FeatureStore.EditIdempotent` | src/components/Dashboard/Map.jsx:118-125 | Applying the same edit batch twice gives the same store as applying it once |
| `FeatureStore.EditKeepsUniqueIds` | src/components/Dashboard/Map.jsx:118-125 | An edit preserves unique ids |
| `FeatureStore.FilteredStore` | src/components/Dashboard/Map.jsx:153-158 | The delete pass completes exactly when no record's lookup throws, and then keeps at most the records it was given |
| `FeatureStore.FilteredStoreMembers` | src/components/Dashboard/Map.jsx:153-158 | After a completed delete pass, a record survives if and only if it was in the store and the lookup of its id in the batch finds nothing |
| `FeatureStore.FilterOfConcat` | src/components/Dashboard/Map.jsx:153-158 | The filter distributes over concatenation, so survivors keep their original order |
| `FeatureStore.DeleteRemovesExactlyTagged` | src/components/Dashboard/Map.jsx:153-158 | When every deleted layer is readable, exactly the records whose id tags a deleted layer are removed |
| `FeatureStore.DeleteKeepsUniqueIds` | src/components/Dashboard/Map.jsx:153-158 | A delete preserves unique ids |
| `FeatureStore.DeleteIdempotent` | src/components/Dashboard/Map.jsx:153-158 | Applying the same delete batch twice gives the same store as applying it once |
| `FeatureStore.CreatedRecord` | src/components/Dashboard/Map.jsx:76-86 | A record is committed if and only if the reply is a body with `geo_data` and the feature has a geometry and properties; it carries the server's id, the drawn geometry, and `properties.id` equal to that id |
| `FeatureStore.CreatedRecordMatchesRequest` | src/components/Dashboard/Map.jsx:82-86 | The stored feature encodes to exactly the envelope that was sent, with `properties.id` set to the server id |
| `FeatureStore.AppendKeepsUniqueIds` | src/components/Dashboard/Map.jsx:86 | Appending a record with a fresh id preserves unique ids |
| `FeatureStore.RenderedRecords` | src/components/Dashboard/Map.jsx:49-56 | Every rendered record has `data` Leaflet can draw, and no more records are rendered than were given |
| `FeatureStore.RenderedRecordsMembers` | src/components/Dashboard/Map.jsx:49-56 | A record is rendered if and only if it is in the list and Leaflet can draw its `data` |
| `FeatureStore.RenderedRecordsOfConcat` | src/components/Dashboard/Map.jsx:49-56 | Rendering distributes over concatenation: records are drawn in list order, and each part of the list is drawn independently of the rest |
| `FeatureStore.MakeLayer` | src/components/Dashboard/Map.jsx:52-55 | A drawn layer is readable and tagged with its record's id |
| `FeatureStore.StampedRecord` | src/components/Dashboard/Map.jsx:54 | Stamping through the shared `data` object keeps the record's id and gives a rendered record its layer's feature; a skipped record is unchanged |
| `FeatureStore.RenderedLayerNamesOneRecord` | src/components/Dashboard/Map.jsx:49-56 | With unique ids, the id on every drawn layer names exactly one record |
| `MapComponent.TaggedLayers` | src/components/Dashboard/Map.jsx:103 | Every layer that produces a server call carries a truthy `properties.id`, and there are no more of them than layers in the batch |
| `MapComponent.TaggedLayersMembers` | src/components/Dashboard/Map.jsx:103 | A layer produces a server call if and only if it is in the batch and carries a truthy `properties.id` |
| `MapComponent.UpdateCallFor` | src/components/Dashboard/Map.jsx:104-107 | Each update call sends the create envelope of the layer's current GeoJSON |
| `MapComponent.IssueUpdates` | src/components/Dashboard/Map.jsx:102-114 | One update call per tagged layer, in batch order |
| `MapComponent.IssueDeletes` | src/components/Dashboard/Map.jsx:138-149 | One delete call per tagged layer, in batch order, each with that layer's truthy id |
| `MapComponent.Map.constructor` | src/components/Dashboard/Map.jsx:16-17 | The store starts empty (`useState([])`) and so does the feature group |
| `MapComponent.Map.SaveToLocalStorage` | src/components/Dashboard/Map.jsx:41-43 | The cache is overwritten with the whole given list; the token is untouched |
| `MapComponent.HydrationCanBreakNaming` | src/components/Dashboard/Map.jsx:25-30 | Starting from a group whose one layer is tagged with the stored record's id, hydrating with a list that lacks that id leaves the layer naming no stored record |
| `MapComponent.Map.OnGeoDataChanged` | src/components/Dashboard/Map.jsx:25-30 | A non-empty fetched list replaces the store and is cached; an empty one changes nothing; layers are not redrawn |
| `MapComponent.DrawRecords` | src/components/Dashboard/Map.jsx:49-56 | The loop gives each rendered record, in order, the next stamp and a layer made from it and tagged with its id, and no other keys; it returns every record as stamping leaves it |
| `MapComponent.Map.RenderGeoData` | src/components/Dashboard/Map.jsx:45-62 | The group is cleared, then holds exactly one freshly stamped layer per rendered record, in order, tagged with its record's id; it returns the records as stamping leaves them |
| `MapComponent.Map.LoadLocalGeoData` | src/components/Dashboard/Map.jsx:32-39 | Without a cache nothing changes. With one, the store becomes the cached records, stamped by rendering. Each new key holds the layer made from its rendered record, and every tagged layer names a record of the store |
| `MapComponent.Map.HandleCreated` | src/components/Dashboard/Map.jsx:70-96 | On commit, the store is the old store plus exactly the new record at the end, the cache equals the store, and the layer carries the stamped feature; on rollback, store and cache are unchanged and the drawn layer is removed. The committed layer is tagged with the new record's id, so every tagged layer still names a stored record |
| `MapComponent.Map.HandleEdited` | src/components/Dashboard/Map.jsx:98-132 | For every combination of update replies, the calls are one per tagged layer; the store becomes the edited store and the cache equals it, or, when the pass throws, both are unchanged. Ids are kept, so every tagged layer still names a stored record |
| `MapComponent.Map.HandleDeleted` | src/components/Dashboard/Map.jsx:134-165 | The store changes if and only if every delete call succeeded and the filter pass completed; it then becomes the filtered store and the cache equals it; otherwise store and cache are unchanged |
| `AuthContext.LoginErrorMessage` | src/contexts/AuthContext.jsx:46-48 | The error text is the server's non-empty message when there is one, and "Login failed. Please try again." otherwise |
| `AuthContext.AuthProvider.constructor` | src/contexts/AuthContext.jsx:7-9 | The provider starts not authenticated, loading, with no error |
| `AuthContext.AuthProvider.CheckAuth` | src/contexts/AuthContext.jsx:12-26 | With no token, nothing but loading changes. A token that validates authenticates and is put in the header. A token that fails is removed and the header deleted, and authentication stays as it was. Loading ends in every case |
| `AuthContext.AuthProvider.Login` | src/contexts/AuthContext.jsx:30-51 | A reply with a truthy token stores it, sets the header (so later requests carry it), authenticates and clears the error. Any other reply throws, sets the server message or the default text, and leaves authentication, token and header unchanged |
| `AuthContext.AuthProvider.Logout` | src/contexts/AuthContext.jsx:53-57 | From any state, the token and the header are removed and the session is unauthenticated; later requests carry no `Authorization` header |
| `AuthContext.Mount` | src/contexts/AuthContext.jsx:11-28 | After mounting and the initial check, the provider is not loading, has no error, and is authenticated if and only if a stored token validated |
| `Dashboard.ImportBatch` | src/components/Dashboard/Dashboard.jsx:45-63 | Features are sent and a re-list follows if and only if the document parsed and is a Feature, or a FeatureCollection with a `features` array; a collection sends its features, a Feature sends itself |
| `Dashboard.CreateRequests` | src/components/Dashboard/Dashboard.jsx:47-53 | There is at most one request per feature |
| `Dashboard.CreateRequestsOfConcat` | src/components/Dashboard/Dashboard.jsx:47-53 | The requests for a concatenation are the concatenated requests, so a feature without a geometry never changes the requests for the features after it |
| `Dashboard.SkippedFeatureIssuesNothing` | src/components/Dashboard/Dashboard.jsx:48-52 | A feature without a geometry issues no request, because building its envelope throws before any call; the features around it are not disturbed |
| `Dashboard.OneRequestPerFeature` | src/components/Dashboard/Dashboard.jsx:46-59 | When every feature has a geometry, exactly one create is issued per feature, in order |
| `Dashboard.IssueCreates` | src/components/Dashboard/Dashboard.jsx:47-53 | The loop issues exactly the requests of its features, in order |
| `Dashboard.Dashboard.constructor` | src/components/Dashboard/Dashboard.jsx:8 | The dashboard starts with an empty list |
| `Dashboard.Dashboard.HandleLogout` | src/components/Dashboard/Dashboard.jsx:29-36 | Logout clears the token and the header, ends the session and routes to "/login" |
| `Dashboard.Dashboard.FetchGeoData` | src/components/Dashboard/Dashboard.jsx:16-27 | A successful list replaces `geoData` wholesale; a 401 logs out and routes to "/login", leaving `isLoading`, `error` and the cached list alone; any other error changes nothing |
| `Dashboard.Dashboard.HandleFileUpload` | src/components/Dashboard/Dashboard.jsx:38-71 | For every combination of create replies, a re-list happens if and only if the document is accepted, and then exactly once; the creates are the batch's requests; the re-list's 401 ends the session and leaves `isLoading`, `error` and the cached list alone; a rejected or unparsable document issues no create and changes nothing |

## Left out

- Leaflet drawing: viewport fitting (`getBounds`/`fitBounds`), centre and zoom, tiles, and coordinate validation. Coordinates are opaque values. `L.geoJSON` is modelled only by whether it accepts the geometry: a known type, with `geometries` on a GeometryCollection and `coordinates` on every other type (`Leaflet.Renderable`). Malformed coordinate arrays are not modelled.
- The draw control's own changes to the feature group happen outside the handlers, so they are not modelled. It adds the drawn layer before `onCreated`, moves the vertices of edited layers and removes deleted layers.
- HTTP transport, `withCredentials`, URL paths with the id in them, and the request bodies of login and register. Replies are inputs. `register` and `listGeoData` only pass the reply body through.
- `FileReader`, the file picker and `JSON.parse`. A parsed document is an input, and a missing file does nothing. JSON serialisation of the cache is treated as exact, so the cache holds the records themselves.
- React scheduling: stale closures over `localGeoData`, when effects run, the `map` readiness check before `loadLocalGeoData`, and the `featureGroupRef` null check. The handlers run one at a time on the current store.
- The concurrent issuing of calls under `Promise.all`, and races between overlapping batches. Each batch is its sequence of calls plus one reply per call, joined before the store update.
- The loading indicators, `alert`, `console` output, JSX markup and the routing shell (`src/App.jsx`). Routing after logout is kept only as the `route` field.
- Server behaviour. Fresh ids on create, the final list after a mixed-success import, and invalidation of the session on the server are outside the client.
- MapComponent.Map.SaveToLocalStorage: the write always succeeds. In the source, `localStorage.setItem` can throw, for example on a full quota. After that the store and cache disagree. In `handleCreated` the store has already gained the record (Map.jsx:87), while the catch removes its layer and the cache stays stale (Map.jsx:89-92). In `handleEdited` and `handleDeleted` the store changes while the cache does not (Map.jsx:126-127, 159-160). In the hydration effect the throw is not caught (Map.jsx:28). None of these outcomes is modelled.
- FeatureStore.CreatedRecord: a `geo_data` object without an `ID` member is not modelled; `geo_data` is taken to carry an integer `ID`.
- MapComponent.Map.RenderGeoData: stamps are modelled as consecutive keys from the group's next key, one per drawn record. Leaflet's stamp counter is global, and a GeometryCollection's sublayers also consume stamps. So real keys are fresh and increasing but not necessarily consecutive.
- FeatureStore.FindLayer: ids are compared as numbers (`Num(id)`), so string or other non-number record ids are not modelled.
