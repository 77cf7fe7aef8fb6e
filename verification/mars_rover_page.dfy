/** The Mars rover page's client logic (frontend/src/pages/MarsRover.jsx):
    the selection state, the request it sends, and the pagination controls. */
module MarsRoverPage {
  import opened Outcomes
  import opened Query
  import Text
  import MarsRoverService
  import MarsRoverRoutes

  /** The page's state hooks; `photoCount` is the length of the shown photo
      list, `totalPhotos` the total the server reported. */
  datatype PageState = PageState(
    rover: string,
    date: string,
    camera: string,
    page: int,
    photoCount: nat,
    totalPhotos: nat)

  /** The photos the server is assumed to send per page. */
  const PhotosPerPage: nat := 25

  /** The rovers offered by the selector. */
  const Rovers: seq<string> := ["curiosity", "opportunity", "spirit", "perseverance"]

  /** Opening state: Curiosity, today's date (already formatted), no camera,
      page 1, nothing loaded. */
  function InitialState(todayText: string): (s: PageState)
    ensures s.rover == "curiosity" && s.rover in Rovers && s.date == todayText && s.camera == ""
    ensures s.page == 1 && s.photoCount == 0 && s.totalPhotos == 0
  {
    PageState("curiosity", todayText, "", 1, 0, 0)
  }

  /** `handleRoverChange`: new rover, camera filter cleared, back to page 1. */
  function ChangeRover(s: PageState, rover: string): (s': PageState)
    ensures s'.rover == rover && s'.camera == "" && s'.page == 1
    ensures s'.date == s.date && s'.photoCount == s.photoCount && s'.totalPhotos == s.totalPhotos
  {
    s.(rover := rover, camera := "", page := 1)
  }

  /** `handleDateChange`: new date, back to page 1. */
  function ChangeDate(s: PageState, date: string): (s': PageState)
    ensures s'.date == date && s'.page == 1
    ensures s'.rover == s.rover && s'.camera == s.camera
    ensures s'.photoCount == s.photoCount && s'.totalPhotos == s.totalPhotos
  {
    s.(date := date, page := 1)
  }

  /** `handleCameraChange`: new camera filter, back to page 1. */
  function ChangeCamera(s: PageState, camera: string): (s': PageState)
    ensures s'.camera == camera && s'.page == 1
    ensures s'.rover == s.rover && s'.date == s.date
    ensures s'.photoCount == s.photoCount && s'.totalPhotos == s.totalPhotos
  {
    s.(camera := camera, page := 1)
  }

  /** The query `fetchPhotos` sends. */
  datatype PhotosParams = PhotosParams(rover: string, earthDate: string, page: int, camera: Option<string>)

  /** `fetchPhotos`' parameters: always rover, earth date and page, the
      camera only when one is selected, never a sol. */
  function RequestParams(s: PageState): (p: PhotosParams)
    ensures p.rover == s.rover && p.earthDate == s.date && p.page == s.page
    ensures p.camera.Some? <==> s.camera != ""
    ensures p.camera.Some? ==> p.camera.value == s.camera
  {
    PhotosParams(s.rover, s.date, s.page, if s.camera != "" then Some(s.camera) else None)
  }

  /** The parameters as the server's query object sees them: an integer page
      is sent as its decimal text and read back by `parseInt`. */
  function AsServerQuery(p: PhotosParams): (q: MarsRoverRoutes.PhotosQuery)
    ensures q.rover == Given(p.rover) && q.earthDate == Given(p.earthDate)
    ensures q.sol == Absent && q.page == Parsed(Int(p.page))
    ensures q.camera.Given? <==> p.camera.Some?
  {
    MarsRoverRoutes.PhotosQuery(
      Given(p.rover), Absent, NaN, Given(p.earthDate),
      if p.camera.Some? then Given(p.camera.value) else Absent,
      Parsed(Int(p.page)))
  }

  /** A request from the page with an offered rover, a date and a page of at
      least 1 passes the server's checks and reaches the service as an
      earth-date query with the selected camera. */
  lemma RequestsPassValidation(s: PageState)
    requires s.rover in Rovers && s.date != "" && s.page >= 1
    ensures var r := MarsRoverRoutes.ValidatePhotosQuery(AsServerQuery(RequestParams(s)));
      && r.Ok?
      && var up := MarsRoverService.BuildPhotoParams(r.value);
      && up.sol.None? && up.earthDate == Some(s.date) && up.page == s.page
      && (up.camera.Some? <==> s.camera != "")
  {
    assert Text.Lower("curiosity") == "curiosity";
    assert Text.Lower("opportunity") == "opportunity";
    assert Text.Lower("spirit") == "spirit";
    assert Text.Lower("perseverance") == "perseverance";
  }

  /** An empty date (the field cleared) is rejected by the server. */
  lemma EmptyDateIsRejected(s: PageState)
    requires s.rover in Rovers && s.date == ""
    ensures MarsRoverRoutes.ValidatePhotosQuery(AsServerQuery(RequestParams(s))) == Err(MarsRoverRoutes.MissingDate)
  {
    assert Text.Lower("curiosity") == "curiosity";
    assert Text.Lower("opportunity") == "opportunity";
    assert Text.Lower("spirit") == "spirit";
    assert Text.Lower("perseverance") == "perseverance";
  }

  /** The pagination bar is rendered inside the photo grid, which is shown
      only when some photos are, and then only when the total exceeds what
      is shown. */
  predicate PaginationShown(s: PageState)
  {
    s.photoCount > 0 && s.totalPhotos > s.photoCount
  }

  /** 'Previous' is disabled on page 1. */
  predicate PreviousEnabled(s: PageState): (b: bool)
    ensures s.page >= 1 ==> (b <==> s.page - 1 >= 1)
  {
    s.page != 1
  }

  /** 'Next' is disabled when fewer than a full page of photos is shown. */
  predicate NextEnabled(s: PageState): (b: bool)
    ensures b <==> s.photoCount >= PhotosPerPage
    ensures b ==> s.photoCount > 0
  {
    s.photoCount >= PhotosPerPage
  }

  /** A click on 'Previous': acts only when the bar is shown and the button enabled. */
  function ClickPrevious(s: PageState): (s': PageState)
    ensures PaginationShown(s) && PreviousEnabled(s) ==> s' == s.(page := s.page - 1)
    ensures !(PaginationShown(s) && PreviousEnabled(s)) ==> s' == s
  {
    if PaginationShown(s) && PreviousEnabled(s) then s.(page := s.page - 1) else s
  }

  /** A click on 'Next': acts only when the bar is shown and the button enabled. */
  function ClickNext(s: PageState): (s': PageState)
    ensures PaginationShown(s) && NextEnabled(s) ==> s' == s.(page := s.page + 1)
    ensures !(PaginationShown(s) && NextEnabled(s)) ==> s' == s
  {
    if PaginationShown(s) && NextEnabled(s) then s.(page := s.page + 1) else s
  }

  /** With no photo shown the grid, and the bar inside it, is not rendered:
      neither button can be clicked, whatever total was reported. */
  lemma EmptyGridIgnoresClicks(s: PageState)
    requires s.photoCount == 0
    ensures ClickPrevious(s) == s && ClickNext(s) == s
  {
  }

  /** A successful response: the shown photos and the reported total. */
  function Loaded(s: PageState, listing: MarsRoverService.PhotoListing): (s': PageState)
    ensures s'.photoCount == |listing.photos| && s'.totalPhotos == listing.totalPhotos
    ensures s'.rover == s.rover && s'.date == s.date && s'.camera == s.camera && s'.page == s.page
  {
    s.(photoCount := |listing.photos|, totalPhotos := listing.totalPhotos)
  }

  /** What can happen on the page. */
  datatype Event =
    | PickRover(rover: string)
    | PickDate(date: string)
    | PickCamera(camera: string)
    | PressPrevious
    | PressNext
    | Response(listing: MarsRoverService.PhotoListing)

  function Step(s: PageState, e: Event): PageState
  {
    match e
    case PickRover(r) => ChangeRover(s, r)
    case PickDate(d) => ChangeDate(s, d)
    case PickCamera(c) => ChangeCamera(s, c)
    case PressPrevious => ClickPrevious(s)
    case PressNext => ClickNext(s)
    case Response(l) => Loaded(s, l)
  }

  function Run(s: PageState, events: seq<Event>): PageState
    decreases |events|
  {
    if |events| == 0 then s else Run(Step(s, events[0]), events[1..])
  }

  /** No event takes the page below 1: 'Previous' is disabled on page 1. */
  lemma StepKeepsPagePositive(s: PageState, e: Event)
    requires s.page >= 1
    ensures Step(s, e).page >= 1
  {
  }

  /** From the opening state, every sequence of events keeps the page at 1
      or above, so every request carries a page the server accepts. */
  lemma {:induction false} RunKeepsPagePositive(s: PageState, events: seq<Event>)
    requires s.page >= 1
    ensures Run(s, events).page >= 1
    decreases |events|
  {
    if |events| > 0 {
      StepKeepsPagePositive(s, events[0]);
      RunKeepsPagePositive(Step(s, events[0]), events[1..]);
    }
  }

  /** Responses built by the service report as total exactly the number of
      photos they carry. */
  predicate ServiceListing(e: Event)
  {
    e.Response? ==> e.listing.totalPhotos == |e.listing.photos|
  }

  /** Nothing to page through: the total never exceeds what is shown and
      the page is 1. */
  predicate FirstPageOnly(s: PageState)
  {
    s.page == 1 && s.totalPhotos <= s.photoCount
  }

  lemma StepStaysOnFirstPage(s: PageState, e: Event)
    requires FirstPageOnly(s) && ServiceListing(e)
    ensures FirstPageOnly(Step(s, e))
  {
  }

  /** Because the service's total is the length of the page it returns, the
      pagination bar is never shown and the page never leaves 1. */
  lemma {:induction false} ServiceListingsNeverPaginate(todayText: string, events: seq<Event>)
    requires forall i :: 0 <= i < |events| ==> ServiceListing(events[i])
    ensures var s := Run(InitialState(todayText), events);
      s.page == 1 && !PaginationShown(s)
  {
    RunStaysOnFirstPage(InitialState(todayText), events);
  }

  lemma {:induction false} RunStaysOnFirstPage(s: PageState, events: seq<Event>)
    requires FirstPageOnly(s)
    requires forall i :: 0 <= i < |events| ==> ServiceListing(events[i])
    ensures FirstPageOnly(Run(s, events))
    decreases |events|
  {
    if |events| > 0 {
      StepStaysOnFirstPage(s, events[0]);
      RunStaysOnFirstPage(Step(s, events[0]), events[1..]);
    }
  }

  /** Every listing the service builds is such a listing. */
  lemma ListPhotosIsServiceListing(rover: string, upstream: seq<MarsRoverService.Photo>)
    ensures ServiceListing(Response(MarsRoverService.ListPhotos(rover, upstream)))
  {
  }

  /** The camera choices the page offers per rover: code and full name. */
  const CuriosityCameras: seq<(string, string)> := [
    ("FHAZ", "Front Hazard Avoidance Camera"),
    ("RHAZ", "Rear Hazard Avoidance Camera"),
    ("MAST", "Mast Camera"),
    ("CHEMCAM", "Chemistry and Camera Complex"),
    ("MAHLI", "Mars Hand Lens Imager"),
    ("MARDI", "Mars Descent Imager"),
    ("NAVCAM", "Navigation Camera")]

  /** Opportunity and Spirit offer the same cameras. */
  const MerCameras: seq<(string, string)> := [
    ("FHAZ", "Front Hazard Avoidance Camera"),
    ("RHAZ", "Rear Hazard Avoidance Camera"),
    ("NAVCAM", "Navigation Camera"),
    ("PANCAM", "Panoramic Camera"),
    ("MINITES", "Miniature Thermal Emission Spectrometer")]

  const PerseveranceCameras: seq<(string, string)> := [
    ("EDL_RUCAM", "Rover Up-Look Camera"),
    ("EDL_DDCAM", "Descent Stage Down-Look Camera"),
    ("EDL_PUCAM1", "Parachute Up-Look Camera A"),
    ("EDL_PUCAM2", "Parachute Up-Look Camera B"),
    ("NAVCAM_LEFT", "Navigation Camera - Left"),
    ("NAVCAM_RIGHT", "Navigation Camera - Right"),
    ("MCZ_RIGHT", "Mast Camera Zoom - Right"),
    ("MCZ_LEFT", "Mast Camera Zoom - Left"),
    ("FRONT_HAZCAM_LEFT_A", "Front Hazard Avoidance Camera - Left A"),
    ("FRONT_HAZCAM_RIGHT_A", "Front Hazard Avoidance Camera - Right A"),
    ("REAR_HAZCAM_LEFT", "Rear Hazard Avoidance Camera - Left"),
    ("REAR_HAZCAM_RIGHT", "Rear Hazard Avoidance Camera - Right"),
    ("SKYCAM", "MEDA Skycam"),
    ("SHERLOC_WATSON", "SHERLOC WATSON Camera"),
    ("SUPERCAM_RMI", "SuperCam Remote Micro Imager"),
    ("LCAM", "Lander Vision System Camera")]

  /** The camera selector's options for a rover (`cameras[selectedRover]`). */
  function CameraChoices(rover: string): (r: seq<(string, string)>)
    ensures |r| > 0 <==> rover in Rovers
    ensures forall i :: 0 <= i < |r| && r[i].0 != "MINITES" ==> AgreesWithServer(r[i])
  {
    CuriosityCamerasAgree();
    MerCamerasAgreeExceptMinites();
    PerseveranceCamerasAgree();
    if rover == "curiosity" then CuriosityCameras
    else if rover == "opportunity" || rover == "spirit" then MerCameras
    else if rover == "perseverance" then PerseveranceCameras
    else []
  }

  /** The page's label for a camera code agrees with the server's full name. */
  predicate AgreesWithServer(choice: (string, string))
  {
    choice.0 in MarsRoverService.CameraNames && MarsRoverService.CameraFullName(choice.0) == choice.1
  }

  lemma CuriosityCamerasAgree()
    ensures forall i :: 0 <= i < |CuriosityCameras| ==> AgreesWithServer(CuriosityCameras[i])
  {
  }

  lemma PerseveranceCamerasAgree()
    ensures forall i :: 0 <= i < |PerseveranceCameras| ==> AgreesWithServer(PerseveranceCameras[i])
  {
  }

  /** The Opportunity and Spirit cameras agree except MINITES, whose page
      label omits the '(Mini-TES)' suffix the server adds. */
  lemma MerCamerasAgreeExceptMinites()
    ensures forall i :: 0 <= i < 4 ==> AgreesWithServer(MerCameras[i])
    ensures MerCameras[4].0 == "MINITES" && !AgreesWithServer(MerCameras[4])
  {
    assert AgreesWithServer(MerCameras[0]);
    assert AgreesWithServer(MerCameras[1]);
    assert AgreesWithServer(MerCameras[2]);
    assert AgreesWithServer(MerCameras[3]);
  }

  /** Every camera the page offers carries the server's full name, MINITES
      excepted. */
  lemma CameraChoicesAgreeWithServer(rover: string)
    ensures forall i :: 0 <= i < |CameraChoices(rover)| && CameraChoices(rover)[i].0 != "MINITES" ==>
      AgreesWithServer(CameraChoices(rover)[i])
  {
  }
}
