/** The HTTP binding of a method (goapi/rest.go, getHTTPInfo): the verb and
    URL template of the pattern case that is set, and the `"field,format"`
    body selector split into the body field and its encoding. */
module Binding {

  import opened Wrappers
  import opened Strings
  import opened Descriptors

  /** httpInfo. */
  datatype HttpInfo = HttpInfo(verb: string, url: string, body: string, format: string)

  /** The lower-case verb of a pattern case; the custom case and an unset
      pattern fall outside the switch and leave the verb empty. */
  function PatternVerb(p: Pattern): string {
    match p
    case Get(_) => "get"
    case Post(_) => "post"
    case Patch(_) => "patch"
    case Put(_) => "put"
    case Delete(_) => "delete"
    case _ => ""
  }

  /** The URL template of a pattern case, empty outside the switch. */
  function PatternUrl(p: Pattern): string {
    match p
    case Get(path) => path
    case Post(path) => path
    case Patch(path) => path
    case Put(path) => path
    case Delete(path) => path
    case _ => ""
  }

  /** getHTTPInfo: nothing when the method has no options; otherwise the
      verb and template of the pattern, and the body selector split at its
      commas: without a comma it is the body field with the JSON encoding,
      with one the first two pieces are the field and the encoding. */
  function GetHTTPInfo(m: Method): (r: Option<HttpInfo>)
    ensures r.None? <==> m.options.None?
    ensures r.Some? ==> r.value.verb == PatternVerb(m.options.value.pattern)
    ensures r.Some? ==> r.value.url == PatternUrl(m.options.value.pattern)
  {
    match m.options
    case None => None
    case Some(rule) =>
      var bs := Split(rule.body, ",");
      var body := if |bs| == 1 then rule.body else bs[0];
      var format := if |bs| == 1 then "json" else bs[1];
      Some(HttpInfo(PatternVerb(rule.pattern), PatternUrl(rule.pattern), body, format))
  }

  /** A selector without a comma is the body field itself, sent as JSON;
      in particular the empty selector means no body. */
  lemma BodySelectorPlain(m: Method)
    requires m.options.Some? && ',' !in m.options.value.body
    ensures GetHTTPInfo(m).Some?
    ensures GetHTTPInfo(m).value.body == m.options.value.body
    ensures GetHTTPInfo(m).value.format == "json"
  {
    AbsentChar(m.options.value.body, ',');
    SplitAbsent(m.options.value.body, ",");
  }

  /** A selector `field,format[,…]`: the body field is the text before the
      first comma and the encoding the text between the first and the
      second comma (or the end). */
  lemma BodySelectorWithFormat(m: Method, field: string, format: string, tail: string)
    requires m.options.Some?
    requires m.options.value.body == field + "," + format + tail
    requires ',' !in field && ',' !in format
    requires tail == "" || tail[0] == ','
    ensures GetHTTPInfo(m).Some?
    ensures GetHTTPInfo(m).value.body == field
    ensures GetHTTPInfo(m).value.format == format
  {
    var sel := m.options.value.body;
    assert sel == field + [','] + (format + tail);
    SplitAtFirstChar(field, ',', format + tail);
    if tail == "" {
      assert format + tail == format;
      AbsentChar(format, ',');
      SplitAbsent(format, ",");
    } else {
      assert format + tail == format + [','] + tail[1..];
      SplitAtFirstChar(format, ',', tail[1..]);
    }
  }

  /** The upper-cased verb is GET exactly for the get case and DELETE
      exactly for the delete case: these are the verbs a body is refused
      for. */
  lemma VerbGetDelete(p: Pattern)
    ensures ToUpper(PatternVerb(p)) == "GET" <==> p.Get?
    ensures ToUpper(PatternVerb(p)) == "DELETE" <==> p.Delete?
  {
    var v := PatternVerb(p);
    var u := ToUpper(v);
    assert |u| == |v|;
    match p {
      case Get(_) =>
        assert u == "GET";
      case Post(_) =>
        assert u[1] == 'O';
      case Patch(_) =>
        assert u[1] == 'A';
      case Put(_) =>
        assert u[1] == 'U';
      case Delete(_) =>
        assert u == "DELETE";
      case NoPattern =>
      case Custom(_, _) =>
    }
  }

  /** Only the five standard cases carry a verb. */
  lemma VerbEmptyOutsideSwitch(p: Pattern)
    ensures PatternVerb(p) == "" <==> p.NoPattern? || p.Custom?
    ensures PatternVerb(p) == "" ==> PatternUrl(p) == ""
  {
  }
}
