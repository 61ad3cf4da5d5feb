/** The generated body of one unary method (goapi/rest.go,
    genRestMethodCode): the request URL, the query string, the request
    body, and the call on the HTTP session for the binding's verb. */
module RestMethod {

  import opened Wrappers
  import opened Strings
  import opened Descriptors
  import opened GoQuote
  import opened Naming
  import opened Binding
  import opened UrlTemplate
  import opened Params

  /** The format string of the URL: the address, then the template with
      each placeholder replaced by `%v`. */
  function RawUrl(info: HttpInfo): string {
    "%s" + Format(info.url, 0)
  }

  /** The statement building `rawURL`, with the placeholders' accessors as
      arguments when there are any. */
  function UrlLine(info: HttpInfo): string {
    var ps := ArgTokens(VarMatches(info.url, 0));
    if |ps| > 0 then "rawURL := fmt.Sprintf(" + Quote(RawUrl(info)) + ", c.addr, " + Join(ps, ",") + ")\n"
    else "rawURL := fmt.Sprintf(" + Quote(RawUrl(info)) + ", c.addr)\n"
  }

  /** The Go expression sent as the body: `nil` without a body selector,
      the whole request for `*`, and the selected field otherwise. */
  function BodyExpr(info: HttpInfo): string {
    if info.body == "" then "nil"
    else if info.body == "*" then "in"
    else "in" + FieldGetter(info.body)
  }

  /** The body encoding: the selector's, or JSON without a body. */
  function BodyFormat(info: HttpInfo): string {
    if info.body != "" then info.format else "json"
  }

  /** The refusal of a body on a GET or DELETE binding. */
  function BodyOnGetDelete(name: string): Failure {
    Error("invalid use of body parameter for a get/delete method " + Quote(name))
  }

  /** The statements passing a list of parameter statements to a template
      collaborator, when the list is not empty. */
  function Rendered(lines: seq<string>, render: string -> Result<string>): Result<string> {
    if |lines| > 0 then render(Join(lines, "\n\t")) else Ok("")
  }

  /** The statements that attach the body: a form or a multipart form of
      the body message's leaves, or the JSON encoding of the body
      expression for any other format. */
  ghost function BodyCode(sc: Schema, ext: Externals, m: Method, info: HttpInfo): Result<string> {
    if BodyExpr(info) == "nil" then Ok("")
    else if BodyFormat(info) == "form" then
      var forms :- BodyFormOf(sc, m, info);
      Rendered(forms, ext.bodyFormContent)
    else if BodyFormat(info) == "multi" then
      var forms :- BodyFormOf(sc, m, info);
      Rendered(forms, ext.multipartContent)
    else Ok("\topts = append(opts, grequests.JSON(" + BodyExpr(info) + "))\n")
  }

  /** The final statement: the session call named after the verb. */
  function Dispatch(info: HttpInfo): string {
    "\treturn c.session." + UpperFirst(info.verb) + "(rawURL,opts...)"
  }

  /** genRestMethodCode. A method without options has no binding and
      panics; a body on a GET or DELETE binding is refused after the query
      string has been rendered. */
  ghost function MethodCodeOf(sc: Schema, ext: Externals, m: Method): Result<string> {
    match GetHTTPInfo(m)
    case None => Fail(Panic)
    case Some(info) =>
      var query :- QueryStringOf(sc, m);
      var queryCode :- Rendered(query, ext.queryStringContent);
      var verb := ToUpper(info.verb);
      if info.body != "" && (verb == "GET" || verb == "DELETE") then Fail(BodyOnGetDelete(m.name))
      else
        var bodyCode :- BodyCode(sc, ext, m, info);
        Ok(UrlLine(info) + queryCode + bodyCode + Dispatch(info))
  }

  /** The `rawURL` statement, as the first part of genRestMethodCode
      writes it. */
  method UrlCode(info: HttpInfo) returns (code: string)
    ensures code == UrlLine(info)
  {
    var ps := BaseURL(info);
    var rawURL := "%s" + Format(info.url, 0);
    if |ps| > 0 {
      code := "rawURL := fmt.Sprintf(" + Quote(rawURL) + ", c.addr, " + Join(ps, ",") + ")\n";
    } else {
      code := "rawURL := fmt.Sprintf(" + Quote(rawURL) + ", c.addr)\n";
    }
  }

  /** The body expression and format, as genRestMethodCode chooses them
      once the GET/DELETE rule has passed. */
  method BodyChoice(info: HttpInfo) returns (body: string, format: string)
    ensures body == BodyExpr(info) && format == BodyFormat(info)
  {
    body := "nil";
    format := "json";
    if info.body != "" {
      format := info.format;
      body := "in";
      if info.body != "*" {
        var getter := BuildAccessor(info.body, false);
        body := "in" + getter;
      }
    }
  }

  /** The body statements for a body expression and format. */
  method BodyStatements(sc: Schema, ext: Externals, m: Method, info: HttpInfo, body: string, format: string)
    returns (r: Result<string>)
    requires body == BodyExpr(info) && format == BodyFormat(info)
    ensures r == BodyCode(sc, ext, m, info)
  {
    var bodyCode := "";
    if body != "nil" {
      if format == "form" {
        var forms :- BodyForm(sc, m, info);
        if |forms| > 0 {
          bodyCode :- ext.bodyFormContent(Join(forms, "\n\t"));
        }
      } else if format == "multi" {
        var forms :- BodyForm(sc, m, info);
        if |forms| > 0 {
          bodyCode :- ext.multipartContent(Join(forms, "\n\t"));
        }
      } else {
        bodyCode := "\topts = append(opts, grequests.JSON(" + body + "))\n";
      }
    }
    return Ok(bodyCode);
  }

  /** genRestMethodCode: the code written piece by piece. */
  method GenRestMethodCode(sc: Schema, ext: Externals, m: Method) returns (r: Result<string>)
    ensures r == MethodCodeOf(sc, ext, m)
  {
    var httpInfo := GetHTTPInfo(m);
    if httpInfo.None? {
      return Fail(Panic);
    }
    var info := httpInfo.value;
    var code := UrlCode(info);
    var query :- QueryString(sc, m);
    var queryCode := "";
    if |query| > 0 {
      queryCode :- ext.queryStringContent(Join(query, "\n\t"));
    }
    code := code + queryCode;
    var verb := ToUpper(info.verb);
    if info.body != "" && (verb == "GET" || verb == "DELETE") {
      return Fail(Error("invalid use of body parameter for a get/delete method " + Quote(m.name)));
    }
    var body, format := BodyChoice(info);
    var bodyCode :- BodyStatements(sc, ext, m, info, body, format);
    code := code + bodyCode;
    code := code + ("\treturn c.session." + UpperFirst(info.verb) + "(rawURL,opts...)");
    return Ok(code);
  }

  /** The format string hands fmt.Sprintf one verb per argument: `%s` for
      the address and one `%v` per placeholder, when the template holds no
      `%` of its own; the statement quotes it so that it reads back. */
  lemma UrlLineArguments(info: HttpInfo)
    requires '%' !in info.url
    ensures CountChar(RawUrl(info), '%') == 1 + |ArgTokens(VarMatches(info.url, 0))|
    ensures exists q, tail :: UrlLine(info) == "rawURL := fmt.Sprintf(" + q + tail && Unquote(q) == Some(RawUrl(info))
  {
    RawUrlPercents(info);
    UnquoteQuote(RawUrl(info));
    var ps := ArgTokens(VarMatches(info.url, 0));
    var q := Quote(RawUrl(info));
    var tail := if |ps| > 0 then ", c.addr, " + Join(ps, ",") + ")\n" else ", c.addr)\n";
    if |ps| > 0 {
      RegroupTail("rawURL := fmt.Sprintf(", q, ", c.addr, ", Join(ps, ","), ")\n");
    }
    assert UrlLine(info) == "rawURL := fmt.Sprintf(" + q + tail;
    assert Unquote(q) == Some(RawUrl(info));
  }

  lemma RawUrlPercents(info: HttpInfo)
    requires '%' !in info.url
    ensures CountChar(RawUrl(info), '%') == 1 + |ArgTokens(VarMatches(info.url, 0))|
  {
    FormatCountsMatches(info.url, 0);
    CountCharAppend("%s", Format(info.url, 0), '%');
    assert CountChar("%s", '%') == 1 by {
      assert "%s" == ['%'] + "s";
      CountCharAppend(['%'], "s", '%');
    }
  }

  /** Associativity of concatenation, stated on variables so that the
      caller's proof does not reason about its long strings. */
  lemma RegroupTail(a: string, q: string, b: string, j: string, c: string)
    ensures a + q + b + j + c == a + q + (b + j + c)
  {
  }

  /** The body statements: none without a body; for a form or a multipart
      form, the collaborator is only consulted when there are fields to
      send; any encoding other than those two is sent as JSON. */
  lemma BodyCodeChar(sc: Schema, ext: Externals, m: Method, info: HttpInfo)
    ensures info.body == "" ==> BodyCode(sc, ext, m, info) == Ok("")
    ensures info.body != "" && info.format in {"form", "multi"} && BodyFormOf(sc, m, info) == Ok([]) ==>
      BodyCode(sc, ext, m, info) == Ok("")
    ensures info.body != "" && info.format !in {"form", "multi"} ==>
      BodyCode(sc, ext, m, info) == BodyCode(sc, ext, m, info.(format := "json"))
    ensures BodyCode(sc, ext, m, info).Fail? ==>
      BodyCode(sc, ext, m, info) == Fail(Panic) ||
      (exists s :: ext.bodyFormContent(s) == BodyCode(sc, ext, m, info)) ||
      (exists s :: ext.multipartContent(s) == BodyCode(sc, ext, m, info))
  {
    var r := BodyCode(sc, ext, m, info);
    if r.Fail? && BodyExpr(info) != "nil" && BodyFormat(info) in {"form", "multi"} {
      var forms := BodyFormOf(sc, m, info);
      if forms.Fail? {
        BodyFormFailure(sc, m, info);
      } else if BodyFormat(info) == "form" {
        assert ext.bodyFormContent(Join(forms.value, "\n\t")) == r;
      } else {
        assert ext.multipartContent(Join(forms.value, "\n\t")) == r;
      }
    }
  }

  /** A body on a GET or DELETE binding is refused, with an error that
      names the method, once the query string has been rendered. */
  lemma GetDeleteBodyRefused(sc: Schema, ext: Externals, m: Method)
    requires m.options.Some? && (m.options.value.pattern.Get? || m.options.value.pattern.Delete?)
    requires GetHTTPInfo(m).value.body != ""
    requires QueryStringOf(sc, m).Ok? && Rendered(QueryStringOf(sc, m).value, ext.queryStringContent).Ok?
    ensures MethodCodeOf(sc, ext, m) == Fail(BodyOnGetDelete(m.name))
    ensures exists q :: (BodyOnGetDelete(m.name).message == "invalid use of body parameter for a get/delete method " + q &&
      Unquote(q) == Some(m.name))
  {
    VerbGetDelete(m.options.value.pattern);
    UnquoteQuote(m.name);
  }

  /** The other verbs accept a body, and every verb accepts a binding
      without one: the rule never refuses those. */
  lemma OtherBindingsAccepted(sc: Schema, ext: Externals, m: Method)
    requires m.options.Some?
    requires !(m.options.value.pattern.Get? || m.options.value.pattern.Delete?) || GetHTTPInfo(m).value.body == ""
    requires QueryStringOf(sc, m).Ok? && Rendered(QueryStringOf(sc, m).value, ext.queryStringContent).Ok?
    ensures MethodCodeOf(sc, ext, m) ==
      var info := GetHTTPInfo(m).value;
      var queryCode := Rendered(QueryStringOf(sc, m).value, ext.queryStringContent).value;
      match BodyCode(sc, ext, m, info)
      case Ok(bodyCode) => Ok(UrlLine(info) + queryCode + bodyCode + Dispatch(info))
      case Fail(e) => Fail(e)
  {
    VerbGetDelete(m.options.value.pattern);
  }

  /** Generated code begins with the `rawURL` statement and ends with the
      session call; between them stand the query and body statements. */
  lemma MethodCodeShape(sc: Schema, ext: Externals, m: Method)
    requires MethodCodeOf(sc, ext, m).Ok?
    ensures GetHTTPInfo(m).Some?
    ensures !(GetHTTPInfo(m).value.body != "" && (m.options.value.pattern.Get? || m.options.value.pattern.Delete?))
    ensures exists middle :: (MethodCodeOf(sc, ext, m).value ==
      UrlLine(GetHTTPInfo(m).value) + middle + Dispatch(GetHTTPInfo(m).value))
  {
    var info := GetHTTPInfo(m).value;
    VerbGetDelete(m.options.value.pattern);
    var query := QueryStringOf(sc, m);
    assert query.Ok?;
    var queryCode := Rendered(query.value, ext.queryStringContent);
    assert queryCode.Ok?;
    var verb := ToUpper(info.verb);
    assert !(info.body != "" && (verb == "GET" || verb == "DELETE"));
    var bodyCode := BodyCode(sc, ext, m, info);
    assert bodyCode.Ok?;
    var code := UrlLine(info) + queryCode.value + bodyCode.value + Dispatch(info);
    assert MethodCodeOf(sc, ext, m) == Ok(code);
    Regroup(UrlLine(info), queryCode.value, bodyCode.value, Dispatch(info));
  }

  /** Associativity of concatenation, stated on variables so that the
      caller's proof does not reason about its long strings. */
  lemma Regroup(a: string, b: string, c: string, d: string)
    ensures a + b + c + d == a + (b + c) + d
  {
  }

  /** Why generation fails: a panic (no binding, or a type missing from
      the index), the GET/DELETE rule, or an error of a collaborator. */
  lemma MethodCodeFailure(sc: Schema, ext: Externals, m: Method)
    ensures m.options.None? ==> MethodCodeOf(sc, ext, m) == Fail(Panic)
    ensures MethodCodeOf(sc, ext, m).Fail? ==>
      MethodCodeOf(sc, ext, m) == Fail(Panic) ||
      MethodCodeOf(sc, ext, m) == Fail(BodyOnGetDelete(m.name)) ||
      (exists s :: ext.queryStringContent(s) == MethodCodeOf(sc, ext, m)) ||
      (exists s :: ext.bodyFormContent(s) == MethodCodeOf(sc, ext, m)) ||
      (exists s :: ext.multipartContent(s) == MethodCodeOf(sc, ext, m))
  {
    var r := MethodCodeOf(sc, ext, m);
    if r.Fail? && m.options.Some? {
      var info := GetHTTPInfo(m).value;
      QueryStringEmpty(sc, m);
      var query := QueryStringOf(sc, m);
      if query.Ok? {
        var queryCode := Rendered(query.value, ext.queryStringContent);
        if queryCode.Fail? {
          assert ext.queryStringContent(Join(query.value, "\n\t")) == r;
        } else if !(info.body != "" && (ToUpper(info.verb) == "GET" || ToUpper(info.verb) == "DELETE")) {
          BodyCodeChar(sc, ext, m, info);
          assert BodyCode(sc, ext, m, info) == r;
        }
      }
    }
  }

  /** The session call is named after the verb, as the HTTP session offers
      them; a custom pattern leaves the name empty. */
  lemma DispatchNames(info: HttpInfo, p: Pattern)
    requires info.verb == PatternVerb(p)
    ensures p.Get? ==> UpperFirst(info.verb) == "Get"
    ensures p.Post? ==> UpperFirst(info.verb) == "Post"
    ensures p.Put? ==> UpperFirst(info.verb) == "Put"
    ensures p.Patch? ==> UpperFirst(info.verb) == "Patch"
    ensures p.Delete? ==> UpperFirst(info.verb) == "Delete"
    ensures p.Custom? ==> UpperFirst(info.verb) == ""
  {
    match p
    case Get(_) => assert UpperFirst("get") == "Get";
    case Post(_) => assert UpperFirst("post") == "Post";
    case Put(_) => assert UpperFirst("put") == "Put";
    case Patch(_) => assert UpperFirst("patch") == "Patch";
    case Delete(_) => assert UpperFirst("delete") == "Delete";
    case _ =>
  }
}
