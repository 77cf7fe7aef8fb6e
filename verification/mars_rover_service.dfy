/** Mars rover photos and manifests: the camera-name table, the upstream
    request parameters, and the manifest reshaping
    (backend/services/marsRoverService.js). */
module MarsRoverService {
  import opened Outcomes
  import opened Seqs
  import opened Text
  import opened Dates
  import opened Query

  /** Full names of the rover cameras, keyed by camera code. */
  const CameraNames: map<string, string> := map[
    "FHAZ" := "Front Hazard Avoidance Camera",
    "RHAZ" := "Rear Hazard Avoidance Camera",
    "MAST" := "Mast Camera",
    "CHEMCAM" := "Chemistry and Camera Complex",
    "MAHLI" := "Mars Hand Lens Imager",
    "MARDI" := "Mars Descent Imager",
    "NAVCAM" := "Navigation Camera",
    "PANCAM" := "Panoramic Camera",
    "MINITES" := "Miniature Thermal Emission Spectrometer (Mini-TES)",
    "ENTRY" := "Entry, Descent, and Landing Camera",
    "EDL_RUCAM" := "Rover Up-Look Camera",
    "EDL_DDCAM" := "Descent Stage Down-Look Camera",
    "EDL_PUCAM1" := "Parachute Up-Look Camera A",
    "EDL_PUCAM2" := "Parachute Up-Look Camera B",
    "NAVCAM_LEFT" := "Navigation Camera - Left",
    "NAVCAM_RIGHT" := "Navigation Camera - Right",
    "MCZ_RIGHT" := "Mast Camera Zoom - Right",
    "MCZ_LEFT" := "Mast Camera Zoom - Left",
    "FRONT_HAZCAM_LEFT_A" := "Front Hazard Avoidance Camera - Left A",
    "FRONT_HAZCAM_RIGHT_A" := "Front Hazard Avoidance Camera - Right A",
    "REAR_HAZCAM_LEFT" := "Rear Hazard Avoidance Camera - Left",
    "REAR_HAZCAM_RIGHT" := "Rear Hazard Avoidance Camera - Right",
    "SKYCAM" := "MEDA Skycam",
    "SHERLOC_WATSON" := "SHERLOC WATSON Camera",
    "SUPERCAM_RMI" := "SuperCam Remote Micro Imager",
    "LCAM" := "Lander Vision System Camera"
  ]

  /** `getCameraFullName`: `cameraNames[code] || code`. */
  function CameraFullName(code: string): (name: string)
    ensures code in CameraNames ==> name == CameraNames[code]
    ensures code !in CameraNames ==> name == code
    ensures name != "" || code == ""
  {
    if code in CameraNames && CameraNames[code] != "" then CameraNames[code] else code
  }

  /** Every entry of the table has a non-empty full name, so the `||`
      fallback is taken only for codes missing from the table. */
  lemma CameraNamesNonEmpty()
    ensures forall code :: code in CameraNames ==> CameraNames[code] != ""
  {
  }

  /** A few lookups: known codes map to their names, case matters, and an
      unknown code comes back unchanged. */
  lemma CameraFullNameExamples()
    ensures CameraFullName("NAVCAM") == "Navigation Camera"
    ensures CameraFullName("SUPERCAM_RMI") == "SuperCam Remote Micro Imager"
    ensures CameraFullName("navcam") == "navcam"
    ensures CameraFullName("ZOOMCAM") == "ZOOMCAM"
  {
  }

  /** The arguments `getRoverPhotos` receives. `sol` is `null` (`None`) or a
      number; `earthDate` and `camera` are strings or `null`. */
  datatype PhotoRequest = PhotoRequest(
    rover: string,
    sol: Option<JsInt>,
    earthDate: Param,
    camera: Param,
    page: int)

  /** The query parameters sent upstream (besides the API key). */
  datatype UpstreamParams = UpstreamParams(
    page: int,
    sol: Option<int>,
    earthDate: Option<string>,
    camera: Option<string>)

  /** `sol` is sent when it is truthy (not `null`, not `NaN`, not 0). */
  predicate SolTruthy(sol: Option<JsInt>)
  {
    sol.Some? && IntTruthy(sol.value)
  }

  /** The parameter building in `getRoverPhotos`. */
  function BuildPhotoParams(req: PhotoRequest): (p: UpstreamParams)
    ensures p.page == req.page
    ensures p.sol.Some? <==> SolTruthy(req.sol)
    ensures p.sol.Some? ==> p.sol.value == req.sol.value.value
    ensures p.earthDate.Some? <==> !SolTruthy(req.sol) && Truthy(req.earthDate)
    ensures p.earthDate.Some? ==> p.earthDate.value == req.earthDate.text
    ensures !(p.sol.Some? && p.earthDate.Some?)
    ensures p.camera.Some? <==> Truthy(req.camera)
    ensures p.camera.Some? ==> p.camera.value == req.camera.text
  {
    var sol := if SolTruthy(req.sol) then Some(req.sol.value.value) else None;
    var earthDate := if !SolTruthy(req.sol) && Truthy(req.earthDate) then Some(req.earthDate.text) else None;
    var camera := if Truthy(req.camera) then Some(req.camera.text) else None;
    UpstreamParams(req.page, sol, earthDate, camera)
  }

  /** Sol 0 (landing day) is falsy: without an earth date, the upstream
      request carries neither a sol nor a date. */
  lemma SolZeroIsDropped(rover: string, page: int)
    ensures var p := BuildPhotoParams(PhotoRequest(rover, Some(Int(0)), Absent, Absent, page));
      p.sol.None? && p.earthDate.None?
  {
  }

  /** A rover photo as the service passes it on. */
  datatype Photo = Photo(
    id: int,
    sol: int,
    cameraName: string,
    cameraFullName: string,
    imgSrc: string,
    earthDate: string,
    roverName: string)

  /** The result of `getRoverPhotos` and `getLatestPhotos`. */
  datatype PhotoListing = PhotoListing(photos: seq<Photo>, totalPhotos: nat, rover: string)

  /** The listing built from the upstream photo array. */
  function ListPhotos(rover: string, upstream: seq<Photo>): (r: PhotoListing)
    ensures r.totalPhotos == |r.photos|
    ensures r.photos == upstream && r.rover == rover
  {
    PhotoListing(upstream, |upstream|, rover)
  }

  /** One `photos` entry of the upstream manifest. */
  datatype SolEntry = SolEntry(sol: int, earthDate: string, totalPhotos: int, cameras: seq<string>)

  /** The upstream `photo_manifest`. */
  datatype RawManifest = RawManifest(
    name: string,
    landingDate: string,
    launchDate: string,
    status: string,
    maxSol: int,
    maxDate: string,
    totalPhotos: int,
    photos: seq<SolEntry>)

  /** One `cameras` entry of the reshaped manifest. `name` and `fullName`
      are `None` (undefined) when the entry lists no camera. */
  datatype CameraEntry = CameraEntry(
    name: Option<string>,
    fullName: Option<string>,
    sol: int,
    earthDate: string,
    totalPhotos: int)

  /** The reshaped manifest. */
  datatype Manifest = Manifest(
    name: string,
    landingDate: string,
    launchDate: string,
    status: string,
    maxSol: int,
    maxDate: string,
    totalPhotos: int,
    cameras: seq<CameraEntry>,
    missionDuration: JsInt)

  /** The camera entry of one sol: its first camera code and that code's full name. */
  function CameraEntryOf(e: SolEntry): (c: CameraEntry)
    ensures c.name.Some? <==> |e.cameras| > 0
    ensures c.name.Some? ==> c.name.value == e.cameras[0] && c.fullName == Some(CameraFullName(e.cameras[0]))
    ensures c.name.None? ==> c.fullName.None?
    ensures c.sol == e.sol && c.earthDate == e.earthDate && c.totalPhotos == e.totalPhotos
  {
    if |e.cameras| == 0 then CameraEntry(None, None, e.sol, e.earthDate, e.totalPhotos)
    else CameraEntry(Some(e.cameras[0]), Some(CameraFullName(e.cameras[0])), e.sol, e.earthDate, e.totalPhotos)
  }

  /** `calculateMissionDuration`: whole days between the two dates, `NaN`
      when either is unreadable. */
  function MissionDuration(landing: Option<int>, last: Option<int>): (d: JsInt)
    ensures d.Int? <==> landing.Some? && last.Some?
    ensures d.Int? ==> d.value >= 0
    ensures d.Int? ==> (d.value == 0 <==> landing.value == last.value)
    ensures d.Int? ==> d.value == last.value - landing.value || d.value == landing.value - last.value
  {
    if landing.Some? && last.Some? then
      Int(if last.value >= landing.value then last.value - landing.value else landing.value - last.value)
    else NaN
  }

  /** Swapping the two dates does not change the duration. */
  lemma MissionDurationSymmetric(a: Option<int>, b: Option<int>)
    ensures MissionDuration(a, b) == MissionDuration(b, a)
  {
  }

  /** `transformManifestData`: one camera entry per manifest sol entry, in
      order, plus the mission duration. */
  function TransformManifest(m: RawManifest): (r: Manifest)
    ensures |r.cameras| == |m.photos|
    ensures forall i :: 0 <= i < |m.photos| ==> r.cameras[i] == CameraEntryOf(m.photos[i])
    ensures r.missionDuration == MissionDuration(DateValue(m.landingDate), DateValue(m.maxDate))
    ensures r.name == m.name && r.status == m.status && r.maxSol == m.maxSol && r.totalPhotos == m.totalPhotos
    ensures r.landingDate == m.landingDate && r.launchDate == m.launchDate && r.maxDate == m.maxDate
  {
    Manifest(
      m.name, m.landingDate, m.launchDate, m.status, m.maxSol, m.maxDate, m.totalPhotos,
      seq(|m.photos|, i requires 0 <= i < |m.photos| => CameraEntryOf(m.photos[i])),
      MissionDuration(DateValue(m.landingDate), DateValue(m.maxDate)))
  }

  /** The filter callback of `searchPhotosByCamera` throws on this entry:
      `camera.name.toLowerCase()` fails on an undefined name, and
      `camera.full_name.toLowerCase()` is reached, and fails, only when the
      name does not match and the full name is undefined. */
  predicate EntryThrows(c: CameraEntry, query: string)
  {
    c.name.None? || (!Includes(Lower(c.name.value), Lower(query)) && c.fullName.None?)
  }

  /** The callback returns true: the name matches, or else the full name does. */
  predicate EntryMatches(c: CameraEntry, query: string)
  {
    && c.name.Some?
    && (Includes(Lower(c.name.value), Lower(query))
        || (c.fullName.Some? && Includes(Lower(c.fullName.value), Lower(query))))
  }

  /** The filter in `searchPhotosByCamera`. An entry on which the callback
      throws makes the whole search fail (`None`). */
  function MatchingCameras(cameras: seq<CameraEntry>, query: string): (r: Option<seq<CameraEntry>>)
    ensures r.None? <==> exists i :: 0 <= i < |cameras| && EntryThrows(cameras[i], query)
    ensures r.Some? ==> IsSubsequence(r.value, cameras)
    ensures r.Some? ==> forall i :: 0 <= i < |r.value| ==> EntryMatches(r.value[i], query)
    ensures r.Some? ==> forall i :: 0 <= i < |cameras| && EntryMatches(cameras[i], query) ==> cameras[i] in r.value
    ensures r.Some? ==> multiset(r.value) <= multiset(cameras)
    ensures r.Some? ==> forall i :: 0 <= i < |cameras| && EntryMatches(cameras[i], query) ==>
      multiset(r.value)[cameras[i]] == multiset(cameras)[cameras[i]]
  {
    if exists i :: 0 <= i < |cameras| && EntryThrows(cameras[i], query) then None
    else Some(Filter(cameras, (c: CameraEntry) => EntryMatches(c, query)))
  }

  /** On a transformed manifest the full name is undefined exactly when the
      name is, so the search fails iff some sol lists no camera. */
  lemma ManifestSearchFailsOnlyWithoutCamera(m: RawManifest, query: string)
    ensures MatchingCameras(TransformManifest(m).cameras, query).None? <==>
      exists i :: 0 <= i < |m.photos| && |m.photos[i].cameras| == 0
  {
    var cams := TransformManifest(m).cameras;
    if exists i :: 0 <= i < |cams| && EntryThrows(cams[i], query) {
      var i :| 0 <= i < |cams| && EntryThrows(cams[i], query);
      assert cams[i] == CameraEntryOf(m.photos[i]);
    }
    if exists i :: 0 <= i < |m.photos| && |m.photos[i].cameras| == 0 {
      var i :| 0 <= i < |m.photos| && |m.photos[i].cameras| == 0;
      assert EntryThrows(cams[i], query);
    }
  }
}
