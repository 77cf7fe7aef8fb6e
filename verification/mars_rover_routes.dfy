/** Validation in the `/api/mars-rover` handlers (backend/routes/marsRover.js). */
module MarsRoverRoutes {
  import opened Outcomes
  import opened Text
  import opened Query
  import MarsRoverService

  /** The 400 responses of the rover routes. */
  datatype RoverError = InvalidRover | MissingDate | InvalidPage

  /** The `error` field of the response body. */
  function ErrorTitle(e: RoverError): string
  {
    match e
    case InvalidRover => "Invalid rover name"
    case MissingDate => "Missing date parameter"
    case InvalidPage => "Invalid page number"
  }

  const ValidRovers: seq<string> := ["curiosity", "opportunity", "spirit", "perseverance"]
  const DefaultRover: string := "curiosity"
  const DefaultPage: int := 1

  /** The `rover` query value, `'curiosity'` when absent. */
  function RoverName(rover: Param): string
  {
    if rover.Given? then rover.text else DefaultRover
  }

  /** `validRovers.includes(rover.toLowerCase())`. */
  predicate KnownRover(rover: Param)
  {
    Lower(RoverName(rover)) in ValidRovers
  }

  /** The rover check shared by every rover route; a valid name comes back lower-cased. */
  function CheckRover(rover: Param): (r: Result<string, RoverError>)
    ensures r.Err? <==> !KnownRover(rover)
    ensures r.Err? ==> r.error == InvalidRover
    ensures r.Ok? ==> r.value in ValidRovers && r.value == Lower(RoverName(rover))
  {
    if Lower(RoverName(rover)) in ValidRovers then Ok(Lower(RoverName(rover))) else Err(InvalidRover)
  }

  /** Query of `GET /api/mars-rover`. `solAsInt` is what `parseInt` makes of
      the `sol` text. */
  datatype PhotosQuery = PhotosQuery(
    rover: Param,
    sol: Param,
    solAsInt: JsInt,
    earthDate: Param,
    camera: Param,
    page: NumParam)

  /** `GET /api/mars-rover`: rover, then sol-or-date presence, then page; a
      request that passes reaches `getRoverPhotos` with the rover and camera
      lower-cased and `sol` parsed. */
  function ValidatePhotosQuery(q: PhotosQuery): (r: Result<MarsRoverService.PhotoRequest, RoverError>)
    ensures r == Err(InvalidRover) <==> !KnownRover(q.rover)
    ensures r == Err(MissingDate) <==> KnownRover(q.rover) && !Truthy(q.sol) && !Truthy(q.earthDate)
    ensures r == Err(InvalidPage) <==>
      KnownRover(q.rover) && (Truthy(q.sol) || Truthy(q.earthDate)) && BadPage(ParamValue(q.page, DefaultPage))
    ensures r.Ok? ==>
      && r.value.rover == Lower(RoverName(q.rover)) && r.value.rover in ValidRovers
      && r.value.sol == (if Truthy(q.sol) then Some(q.solAsInt) else None)
      && r.value.earthDate == q.earthDate
      && r.value.camera == (if Truthy(q.camera) then Given(Lower(q.camera.text)) else Absent)
      && r.value.page >= 1 && Int(r.value.page) == ParamValue(q.page, DefaultPage)
  {
    match CheckRover(q.rover)
    case Err(e) => Err(e)
    case Ok(rover) =>
      if !Truthy(q.sol) && !Truthy(q.earthDate) then Err(MissingDate)
      else
        var page := ParamValue(q.page, DefaultPage);
        if BadPage(page) then Err(InvalidPage)
        else
          var sol := if Truthy(q.sol) then Some(q.solAsInt) else None;
          var camera := if Truthy(q.camera) then Given(Lower(q.camera.text)) else Absent;
          Ok(MarsRoverService.PhotoRequest(rover, sol, q.earthDate, camera, page.value))
  }

  /** Without any parameters the request is rejected for the missing date,
      not for the rover: the rover defaults to 'curiosity'. */
  lemma DefaultsApply()
    ensures ValidatePhotosQuery(PhotosQuery(Absent, Absent, NaN, Absent, Absent, Omitted)) == Err(MissingDate)
    ensures ValidatePhotosQuery(PhotosQuery(Absent, Absent, NaN, Given("2015-06-03"), Absent, Omitted))
      == Ok(MarsRoverService.PhotoRequest("curiosity", None, Given("2015-06-03"), Absent, 1))
  {
    assert Lower("curiosity") == "curiosity";
  }

  /** `sol=0` passes validation (the text '0' is truthy) but then parses to
      the falsy number 0, so the upstream request carries neither a sol nor
      an earth date. */
  lemma SolZeroPassesButIsDropped()
    ensures var r := ValidatePhotosQuery(PhotosQuery(Absent, Given("0"), Int(0), Absent, Absent, Omitted));
      && r.Ok?
      && var p := MarsRoverService.BuildPhotoParams(r.value);
      p.sol.None? && p.earthDate.None?
  {
    assert Lower("curiosity") == "curiosity";
  }

  /** The routes that take only a rover. */
  datatype RoverRoute = ManifestsRoute | CamerasRoute | LatestRoute

  /** `GET /api/mars-rover/manifests`, `/cameras` and `/latest`: the rover
      check alone; the service receives the lower-cased name. */
  function ValidateRoverRoute(route: RoverRoute, rover: Param): (r: Result<string, RoverError>)
    ensures r.Err? <==> !KnownRover(rover)
    ensures r.Err? ==> r.error == InvalidRover
    ensures r.Ok? ==> r.value == Lower(RoverName(rover)) && r.value in ValidRovers
  {
    match route
    case ManifestsRoute => CheckRover(rover)
    case CamerasRoute => CheckRover(rover)
    case LatestRoute => CheckRover(rover)
  }

  /** The rover-only routes and the photos route accept the same rovers. */
  lemma SameRoverCheckEverywhere(route: RoverRoute, q: PhotosQuery)
    ensures ValidateRoverRoute(route, q.rover).Err? <==> ValidatePhotosQuery(q) == Err(InvalidRover)
  {
  }

  /** The rover name is compared case-insensitively. */
  lemma RoverCaseInsensitive()
    ensures ValidateRoverRoute(LatestRoute, Given("Perseverance")) == Ok("perseverance")
    ensures ValidateRoverRoute(LatestRoute, Given("ingenuity")).Err?
  {
    assert Lower("Perseverance") == "perseverance";
    assert Lower("ingenuity") == "ingenuity";
  }
}
