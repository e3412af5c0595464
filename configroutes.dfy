/**
 * The decisions of the URL-configuration routes of the HTTP server
 * (index.js): which status each request gets and what it leaves in the saved
 * list. Routing, JSON bodies and the response text are outside the model; a
 * request body is a parsed `Value`.
 */
module ConfigRoutes {
  import opened Wrappers
  import opened Seqs
  import opened JsValues
  import opened UrlManager

  /**
   * `const { name } = body`: destructuring `undefined` or `null` throws a
   * TypeError (None); any other value yields the property, or `undefined`.
   */
  function Field(body: Value, name: string): (r: Option<Value>)
    ensures r.None? <==> body.Undefined? || body.Null?
    ensures body.Obj? && name in body.fields ==> r == Some(body.fields[name])
    ensures r.Some? && !(body.Obj? && name in body.fields) ==> r == Some(Undefined)
  {
    match body
    case Undefined => None
    case Null => None
    case Obj(fields) => Some(if name in fields then fields[name] else Undefined)
    case _ => Some(Undefined)
  }

  /** A status code together with the list the request leaves saved. */
  datatype Reply = Reply(status: int, urls: seq<string>)

  /** `POST /api/config/urls` */
  function PostUrlOn(urls: seq<string>, body: Value): (r: Reply)
    ensures r.status == 201 || r.status == 400 || r.status == 500
    ensures r.status == 500 <==> Field(body, "url").None?
    ensures r.status == 201 <==> Field(body, "url").Some? && AddUrlOn(AsWritten, urls, Field(body, "url").value).result.Added?
    ensures r.status != 201 ==> r.urls == urls
    ensures r.status == 201 ==> |r.urls| == |urls| + 1 && r.urls[..|urls|] == urls && r.urls[|urls|] !in urls
    ensures r.status == 201 ==> r.urls == AddUrlOn(AsWritten, urls, Field(body, "url").value).urls
  {
    match Field(body, "url")
    case None => Reply(500, urls)
    case Some(url) =>
      if !Truthy(url) then Reply(400, urls)
      else
        var o := AddUrlOn(AsWritten, urls, url);
        assert o.result.Added? ==> o.urls[..|urls|] == urls;
        Reply(if o.result.Added? then 201 else 400, o.urls)
  }

  /** `DELETE /api/config/urls` */
  function DeleteUrlOn(urls: seq<string>, body: Value): (r: Reply)
    ensures r.status == 200 || r.status == 400 || r.status == 404 || r.status == 500
    ensures r.status == 400 <==> Field(body, "url").Some? && !Truthy(Field(body, "url").value)
    ensures r.status == 500 <==> Field(body, "url").None? || RemoveUrlOn(AsWritten, urls, Field(body, "url").value).result.RemoveTypeError?
    ensures r.status == 404 <==> Field(body, "url").Some? && RemoveUrlOn(AsWritten, urls, Field(body, "url").value).result.NotFound?
    ensures r.status != 200 ==> r.urls == urls
    ensures r.status == 200 ==> exists k :: 0 <= k < |urls| && r.urls == RemoveAt(urls, k)
    ensures r.status == 200 ==> r.urls == RemoveUrlOn(AsWritten, urls, Field(body, "url").value).urls
  {
    match Field(body, "url")
    case None => Reply(500, urls)
    case Some(url) =>
      if !Truthy(url) then Reply(400, urls)
      else
        var o := RemoveUrlOn(AsWritten, urls, url);
        match o.result
        case Removed(_, _) => RemovedAtSomePosition(AsWritten, urls, url); Reply(200, o.urls)
        case NotFound(_) => Reply(404, urls)
        case _ => Reply(500, urls)
  }

  /** `PUT /api/config/urls` */
  function PutUrlsOn(urls: seq<string>, body: Value): (r: Reply)
    ensures r.status == 200 || r.status == 400 || r.status == 500
    ensures r.status == 500 <==> Field(body, "urls").None? || UpdateUrlsOn(AsWritten, urls, Field(body, "urls").value).result.UpdateTypeError?
    ensures Field(body, "urls").Some? && !Field(body, "urls").value.Arr? ==> r.status == 400
    ensures r.status == 200 <==> Field(body, "urls").Some? && UpdateUrlsOn(AsWritten, urls, Field(body, "urls").value).result.Updated?
    ensures r.status != 200 ==> r.urls == urls
    ensures r.status == 200 ==> NoDup(r.urls) && r.urls == NormalizeAll(AsWritten, StringsOf(Field(body, "urls").value.elems))
  {
    match Field(body, "urls")
    case None => Reply(500, urls)
    case Some(v) =>
      if !Truthy(v) || !v.Arr? then Reply(400, urls)
      else
        var o := UpdateUrlsOn(AsWritten, urls, v);
        match o.result
        case Updated(_) => Reply(200, o.urls)
        case UpdateTypeError => Reply(500, urls)
        case _ => Reply(400, urls)
  }

  /** `GET /api/config/urls`: the saved list, its length and the description. */
  method GetUrls(config: UrlConfig) returns (status: int, urls: seq<string>, total: nat, description: string)
    ensures status == 200 && urls == config.urls && total == |urls|
    ensures description == config.description
  {
    status, urls, total, description := 200, config.urls, |config.urls|, config.description;
  }

  method PostUrl(config: UrlConfig, body: Value) returns (status: int)
    modifies config
    ensures Reply(status, config.urls) == PostUrlOn(old(config.urls), body)
    ensures NoDup(old(config.urls)) ==> NoDup(config.urls)
  {
    var field := Field(body, "url");
    if field.None? {
      return 500;
    }
    var url := field.value;
    if !Truthy(url) {
      return 400;
    }
    var result := config.AddUrl(url);
    status := if result.Added? then 201 else 400;
  }

  method DeleteUrl(config: UrlConfig, body: Value) returns (status: int)
    modifies config
    ensures Reply(status, config.urls) == DeleteUrlOn(old(config.urls), body)
    ensures NoDup(old(config.urls)) ==> NoDup(config.urls)
  {
    var field := Field(body, "url");
    if field.None? {
      return 500;
    }
    var url := field.value;
    if !Truthy(url) {
      return 400;
    }
    var result := config.RemoveUrl(url);
    status := if result.Removed? then 200 else if result.NotFound? then 404 else 500;
  }

  method PutUrls(config: UrlConfig, body: Value) returns (status: int)
    modifies config
    ensures Reply(status, config.urls) == PutUrlsOn(old(config.urls), body)
    ensures status == 200 ==> NoDup(config.urls)
  {
    var field := Field(body, "urls");
    if field.None? {
      return 500;
    }
    var v := field.value;
    if !Truthy(v) || !v.Arr? {
      return 400;
    }
    var result := config.UpdateUrls(v);
    status := if result.Updated? then 200 else if result.UpdateTypeError? then 500 else 400;
  }
}
