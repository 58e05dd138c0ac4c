/** The request-path checks and status helpers of the lab03 HTTP handlers
    (labs/lab03/backend/api/handlers.go). Routing, JSON and the response writer are left out;
    what is kept is the pure logic deciding between a 400 answer and a success body. */
module Lab03Api {
  import opened Wrappers
  import opened Strings
  import opened Strconv

  /** The codes getHTTPStatusDescription knows by name. */
  predicate KnownStatus(code: int) {
    code == 100 || code == 200 || code == 400 || code == 404 || code == 418 || code == 500
  }

  /** getHTTPStatusDescription: a fixed phrase for six codes, "Unknown Status" otherwise. */
  function StatusDescription(code: int): (d: string)
    ensures d == "Unknown Status" <==> !KnownStatus(code)
    ensures code == 100 ==> d == "Continue"
    ensures code == 200 ==> d == "OK"
    ensures code == 400 ==> d == "Bad Request"
    ensures code == 404 ==> d == "Not Found"
    ensures code == 418 ==> d == "I'm a teapot"
    ensures code == 500 ==> d == "Internal Server Error"
  {
    match code
    case 100 => "Continue"
    case 200 => "OK"
    case 400 => "Bad Request"
    case 404 => "Not Found"
    case 418 => "I'm a teapot"
    case 500 => "Internal Server Error"
    case _ => "Unknown Status"
  }

  const CatPrefix: string := "https://http.cat/"

  /** The http.cat picture for a code: the site's address followed by the decimal code. */
  function ImageURL(code: int): (url: string)
    ensures |url| > |CatPrefix| && url[..|CatPrefix|] == CatPrefix
  {
    CatPrefix + Itoa(code)
  }

  /** The code can be read back from the end of its picture's address. */
  lemma ImageURLCode(code: int)
    requires MinInt64 <= code <= MaxInt64
    ensures Atoi(ImageURL(code)[|CatPrefix|..]) == Ok(code)
  {
    assert ImageURL(code)[|CatPrefix|..] == Itoa(code);
    AtoiItoa(code);
  }

  datatype StatusResponse = StatusResponse(statusCode: int, imageURL: string, description: string)

  /** Collection routes ("/api/messages") must split into exactly three parts. */
  function CheckCollectionPath(path: string): (err: Option<string>)
    ensures err == None <==> Count(path, '/') == 2
    ensures err != None ==> err == Some("Invalid path")
  {
    if |Split(path, '/')| != 3 then Some("Invalid path") else None
  }

  /** Item routes ("/api/messages/{id}") must split into four parts, the last an integer. */
  function ParseItemID(path: string): (r: Result<int, string>)
    ensures r.Ok? <==> Count(path, '/') == 3 && Atoi(Split(path, '/')[3]).Ok?
    ensures r.Ok? ==> r.value == Atoi(Split(path, '/')[3]).value
    ensures r.Err? && Count(path, '/') != 3 ==> r.error == "Invalid path"
    ensures r.Err? && Count(path, '/') == 3 ==> r.error == "ID must be an integer value"
  {
    var parts := Split(path, '/');
    if |parts| != 4 then Err("Invalid path")
    else match Atoi(parts[3])
      case Err(_) => Err("ID must be an integer value")
      case Ok(id) => Ok(id)
  }

  /** GetHTTPStatus up to the JSON answer: path shape, integer code, range [100, 500]. */
  function GetHTTPStatus(path: string): (r: Result<StatusResponse, string>)
    ensures r.Ok? ==> 100 <= r.value.statusCode <= 500
    ensures r.Ok? ==> r.value.imageURL == ImageURL(r.value.statusCode)
    ensures r.Ok? ==> r.value.description == StatusDescription(r.value.statusCode)
    ensures r.Ok? <==> |Split(path, '/')| == 4 && Atoi(Split(path, '/')[3]).Ok?
                       && 100 <= Atoi(Split(path, '/')[3]).value <= 500
    ensures |Split(path, '/')| != 4 ==> r == Err("Invalid path")
    ensures |Split(path, '/')| == 4 && Atoi(Split(path, '/')[3]).Err? ==>
              r == Err("Status code must be an integer value")
    ensures |Split(path, '/')| == 4 && Atoi(Split(path, '/')[3]).Ok?
            && !(100 <= Atoi(Split(path, '/')[3]).value <= 500) ==>
              r == Err("Status code must be in range [100, 500]")
  {
    var parts := Split(path, '/');
    if |parts| != 4 then Err("Invalid path")
    else match Atoi(parts[3])
      case Err(_) => Err("Status code must be an integer value")
      case Ok(code) =>
        if code < 100 || code > 500 then Err("Status code must be in range [100, 500]")
        else Ok(StatusResponse(code, ImageURL(code), StatusDescription(code)))
  }

  /** The route for a status code. */
  function StatusPath(code: int): string {
    "/api/status/" + Itoa(code)
  }

  lemma SplitApi()
    ensures Split("/api", '/') == ["", "api"]
  {
    SplitNoSep("", '/');
    SplitJoinStep("", [""], "api", '/');
    assert "" + ['/'] + "api" == "/api";
  }

  lemma SplitApiStatus()
    ensures Split("/api/status", '/') == ["", "api", "status"]
  {
    SplitApi();
    SplitJoinStep("/api", ["", "api"], "status", '/');
    assert "/api" + ['/'] + "status" == "/api/status";
  }

  /** The route splits into "", "api", "status" and the decimal code. */
  lemma StatusPathSplit(code: int)
    ensures Split(StatusPath(code), '/') == ["", "api", "status", Itoa(code)]
  {
    SplitApiStatus();
    ItoaNoOther(code, '/');
    SplitJoinStep("/api/status", ["", "api", "status"], Itoa(code), '/');
    assert "/api/status" + ['/'] + Itoa(code) == StatusPath(code);
  }

  /** Every code in [100, 500] requested on its route is answered, with its own picture. */
  lemma StatusPathAccepted(code: int)
    requires 100 <= code <= 500
    ensures GetHTTPStatus(StatusPath(code)) == Ok(StatusResponse(code, ImageURL(code), StatusDescription(code)))
  {
    StatusPathSplit(code);
    AtoiItoa(code);
  }

  /** A code outside [100, 500] on its route is refused with the range message. */
  lemma StatusPathOutOfRange(code: int)
    requires MinInt64 <= code <= MaxInt64
    requires code < 100 || code > 500
    ensures GetHTTPStatus(StatusPath(code)) == Err("Status code must be in range [100, 500]")
  {
    StatusPathSplit(code);
    AtoiItoa(code);
  }
}
