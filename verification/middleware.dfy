/** The CORS handling of middleware.ts. Header names are the keys of a map,
    matched exactly as written; the session token is an input the middleware
    reads but never uses. */
module Cors {
  import opened Wrappers
  import opened JsonValue
  import opened Http

  datatype Request = Request(verb: string, headers: map<string, string>, pathname: string)

  const AllowedOrigins: seq<string> := ["*"]

  const AllowOrigin := "Access-Control-Allow-Origin"
  const AllowMethods := "Access-Control-Allow-Methods"
  const AllowHeaders := "Access-Control-Allow-Headers"
  const AllowCredentials := "Access-Control-Allow-Credentials"

  /** The four header names `setCorsHeaders` writes. */
  const CorsHeaderNames: set<string> := {AllowOrigin, AllowMethods, AllowHeaders, AllowCredentials}

  /** `isOriginAllowed(origin)`: listed, or the list holds the wildcard. */
  function IsOriginAllowed(origin: string): (r: bool)
    ensures r
  {
    origin in AllowedOrigins || "*" in AllowedOrigins
  }

  /** `setCorsHeaders(response, origin)`: writes exactly the four CORS headers. */
  function SetCorsHeaders(response: Response, origin: string): (r: Response)
    ensures r.status == response.status && r.body == response.body
    ensures r.headers.Keys == response.headers.Keys + CorsHeaderNames
    ensures r.headers[AllowOrigin] == origin
    ensures r.headers[AllowMethods] == "GET, POST, PUT, DELETE, OPTIONS"
    ensures r.headers[AllowHeaders] == "Content-Type, Authorization"
    ensures r.headers[AllowCredentials] == "true"
    ensures forall h :: h in response.headers && h !in CorsHeaderNames ==> r.headers[h] == response.headers[h]
  {
    response.(headers := response.headers[AllowOrigin := origin]
                                         [AllowMethods := "GET, POST, PUT, DELETE, OPTIONS"]
                                         [AllowHeaders := "Content-Type, Authorization"]
                                         [AllowCredentials := "true"])
  }

  /** `handleCors(request, response, origin)`: a preflight gets a fresh empty
      JSON answer with the CORS headers; any other request keeps the response it
      passed in and gains them. */
  function HandleCors(request: Request, response: Response, origin: string): (r: Response)
    ensures CorsHeaderNames <= r.headers.Keys
    ensures r.headers[AllowOrigin] == origin && r.headers[AllowCredentials] == "true"
    ensures request.verb == "OPTIONS" ==>
              && r.status == 200 && r.body == JsonBody(JObject(map[]))
              && r.headers.Keys == CorsHeaderNames + {ContentType}
              && r.headers[ContentType] == "application/json"
    ensures request.verb != "OPTIONS" ==>
              && r.status == response.status && r.body == response.body
              && r.headers.Keys == response.headers.Keys + CorsHeaderNames
              && forall h :: h in response.headers && h !in CorsHeaderNames ==> r.headers[h] == response.headers[h]
  {
    if request.verb == "OPTIONS" then
      var empty := JsonResponse(JObject(map[]), 200);
      if IsOriginAllowed(origin) then SetCorsHeaders(empty, origin) else empty
    else if IsOriginAllowed(origin) then SetCorsHeaders(response, origin)
    else response
  }

  /** `request.headers.get('origin') || '*'`. */
  function RequestOrigin(request: Request): (origin: string)
    ensures "origin" in request.headers && request.headers["origin"] != "" ==> origin == request.headers["origin"]
    ensures "origin" !in request.headers || request.headers["origin"] == "" ==> origin == "*"
  {
    if "origin" in request.headers && request.headers["origin"] != "" then request.headers["origin"] else "*"
  }

  /** `middleware(request)`; `token` is what `getToken` returned. Every answer
      echoes the request origin; anything but a preflight is passed on. */
  function Middleware(request: Request, token: Option<string>): (r: Response)
    ensures AllowOrigin in r.headers && r.headers[AllowOrigin] == RequestOrigin(request)
    ensures !r.body.Redirect?
    ensures request.verb != "OPTIONS" ==>
              r.status == 200 && r.body == Next && r.headers.Keys == CorsHeaderNames
    ensures request.verb == "OPTIONS" ==> r.body == JsonBody(JObject(map[]))
  {
    HandleCors(request, PassThrough, RequestOrigin(request))
  }

  /** A preflight request is answered with a fresh empty JSON object carrying
      the four CORS headers and the JSON content type, whatever response was
      passed in. */
  lemma PreflightAnswersFreshResponse(request: Request, response: Response, origin: string)
    requires request.verb == "OPTIONS"
    ensures var r := HandleCors(request, response, origin);
            && r.status == 200 && r.body == JsonBody(JObject(map[]))
            && r.headers.Keys == CorsHeaderNames + {ContentType}
            && r.headers[AllowOrigin] == origin
  {
  }

  /** Any other request gets the response it passed in, with the CORS headers
      added and every other header kept. */
  lemma OtherMethodsKeepResponse(request: Request, response: Response, origin: string)
    requires request.verb != "OPTIONS"
    ensures var r := HandleCors(request, response, origin);
            && r.status == response.status && r.body == response.body
            && r.headers.Keys == response.headers.Keys + CorsHeaderNames
            && r.headers[AllowOrigin] == origin
            && r.headers[AllowCredentials] == "true"
            && forall h :: h in response.headers && h !in CorsHeaderNames ==> r.headers[h] == response.headers[h]
  {
  }

  /** The middleware never redirects, echoes the request origin (or '*'), and
      gives the same answer whatever the session token is. */
  lemma MiddlewareIgnoresSession(request: Request, token1: Option<string>, token2: Option<string>)
    ensures Middleware(request, token1) == Middleware(request, token2)
    ensures !Middleware(request, token1).body.Redirect?
    ensures Middleware(request, token1).headers[AllowOrigin] == RequestOrigin(request)
    ensures request.verb != "OPTIONS" ==> Middleware(request, token1).body == Next
  {
  }
}
