/**
 * `fmt_result`: the Markdown report of one quota check, built line by line from the
 * HTTP status and the decoded JSON body.
 */
module Report {
  import opened Text

  /** A decoded JSON value; `JNull` is also Python's `None`, the "no body" marker. */
  datatype Json =
    | JNull
    | JBool(b: bool)
    | JNum(n: int)
    | JFloat(x: real)
    | JStr(s: string)
    | JArr(items: seq<Json>)
    | JObj(fields: map<string, Json>)

  /**
   * Library formatting the model does not reproduce: `json.dumps(indent=2, ensure_ascii=False)`,
   * `str` of a float and `str` of a list or dict.
   */
  datatype Lib = Lib(dumps: Json -> string, floatStr: real -> string, containerStr: Json -> string)

  /** Longest JSON dump shown before it is cut. */
  const JsonLimit := 1500
  const Ellipsis := "\U{2026}"

  const NoPayloadLine := "_Tidak ada payload JSON dari server._"
  const JsonFenceOpen := "```json"
  const JsonFenceClose := "```"

  function HeaderLine(msisdn: string): string {
    "\U{1F4E1} *Cek Kuota* `" + msisdn + "`"
  }

  function StatusLine(status: int): string {
    "Status HTTP: `" + IntToDecimal(status) + "`"
  }

  const ErrorLead := "\U{274C} *Error*: `"

  function ErrorLine(message: string): string {
    ErrorLead + message + "`"
  }

  function UpstreamStatusLine(s: string): string {
    "Upstream status: `" + s + "`"
  }

  /** `str(v)` of a JSON value, as an f-string prints it. */
  function PyStr(lib: Lib, v: Json): string {
    match v
    case JNull => "None"
    case JBool(b) => if b then "True" else "False"
    case JNum(n) => IntToDecimal(n)
    case JFloat(x) => lib.floatStr(x)
    case JStr(s) => s
    case _ => lib.containerStr(v)
  }

  /** The dump cut to `JsonLimit` characters with an ellipsis appended when it is longer. */
  function Truncate(js: string): (r: string)
    ensures |r| <= JsonLimit + 1
    ensures |js| <= JsonLimit ==> r == js
    ensures |js| > JsonLimit ==> |r| == JsonLimit + 1 && r[..JsonLimit] == js[..JsonLimit]
    ensures |js| > JsonLimit ==> r[JsonLimit] == '\U{2026}'
  {
    if |js| > JsonLimit then js[..JsonLimit] + Ellipsis else js
  }

  /** True for a dict carrying an `error` key: the error branch is taken. */
  predicate IsErrorPayload(data: Json) {
    data.JObj? && "error" in data.fields
  }

  /** The `lines` list `fmt_result` builds before joining it. */
  function ReportLines(lib: Lib, msisdn: string, status: int, data: Json): seq<string> {
    [HeaderLine(msisdn), StatusLine(status)]
    + match data
      case JObj(fields) =>
        if "error" in fields then
          [ErrorLine(PyStr(lib, fields["error"]))]
          + (if "status" in fields then [UpstreamStatusLine(PyStr(lib, fields["status"]))] else [])
        else
          [JsonFenceOpen, Truncate(lib.dumps(data)), JsonFenceClose]
      case _ => [NoPayloadLine]
  }

  /** The rendered report, as the rest of the script sends it. */
  function Render(lib: Lib, msisdn: string, status: int, data: Json): string {
    Join(ReportLines(lib, msisdn, status, data), '\n')
  }

  /** `fmt_result`: appends the lines one by one and joins them with newlines. */
  method FmtResult(lib: Lib, msisdn: string, status: int, data: Json) returns (text: string)
    ensures text == Render(lib, msisdn, status, data)
  {
    var lines: seq<string> := [];
    lines := lines + [HeaderLine(msisdn)];
    lines := lines + ["Status HTTP: `" + IntToDecimal(status) + "`"];
    if data.JObj? && "error" in data.fields {
      lines := lines + [ErrorLine(PyStr(lib, data.fields["error"]))];
      if "status" in data.fields {
        lines := lines + [UpstreamStatusLine(PyStr(lib, data.fields["status"]))];
      }
    } else if data.JObj? {
      var js := lib.dumps(data);
      if |js| > JsonLimit {
        js := js[..JsonLimit] + Ellipsis;
      }
      lines := lines + [JsonFenceOpen];
      lines := lines + [js];
      lines := lines + [JsonFenceClose];
      assert js == Truncate(lib.dumps(data));
    } else {
      lines := lines + [NoPayloadLine];
    }
    assert lines == ReportLines(lib, msisdn, status, data);
    text := Join(lines, '\n');
  }

  /** Exactly one of the three branches is taken, and each gives the lines it promises. */
  lemma ReportShape(lib: Lib, msisdn: string, status: int, data: Json)
    ensures var lines := ReportLines(lib, msisdn, status, data);
      && 3 <= |lines| <= 5
      && lines[0] == HeaderLine(msisdn) && lines[1] == StatusLine(status)
      && (IsErrorPayload(data) ==>
            && lines[2] == ErrorLine(PyStr(lib, data.fields["error"]))
            && (|lines| == 4 <==> "status" in data.fields)
            && (|lines| == 4 ==> lines[3] == UpstreamStatusLine(PyStr(lib, data.fields["status"])))
            && |lines| <= 4)
      && (data.JObj? && !IsErrorPayload(data) ==>
            && |lines| == 5 && lines[2] == JsonFenceOpen && lines[4] == JsonFenceClose
            && |lines[3]| <= JsonLimit + 1)
      && (!data.JObj? ==> lines == [HeaderLine(msisdn), StatusLine(status), NoPayloadLine])
  {
  }

  lemma {:induction false} JoinFirstTwo(lines: seq<string>)
    requires |lines| >= 3
    ensures Join(lines, '\n') == lines[0] + "\n" + lines[1] + "\n" + Join(lines[2..], '\n')
  {
    assert lines[1..][1..] == lines[2..];
    assert Join(lines[1..], '\n') == lines[1] + "\n" + Join(lines[2..], '\n');
  }

  /** Every report opens with the number header line and the HTTP status line. */
  lemma RenderOpensWithHeader(lib: Lib, msisdn: string, status: int, data: Json)
    ensures StartsWith(Render(lib, msisdn, status, data),
                       HeaderLine(msisdn) + "\n" + StatusLine(status) + "\n")
  {
    var lines := ReportLines(lib, msisdn, status, data);
    ReportShape(lib, msisdn, status, data);
    JoinFirstTwo(lines);
    var p := HeaderLine(msisdn) + "\n" + StatusLine(status) + "\n";
    assert Render(lib, msisdn, status, data) == p + Join(lines[2..], '\n');
  }

  /** An upstream `error` string is passed through verbatim, whatever the HTTP status. */
  lemma ErrorMessageVerbatim(lib: Lib, msisdn: string, status: int, fields: map<string, Json>, message: string)
    requires "error" in fields && fields["error"] == JStr(message)
    ensures Contains(Render(lib, msisdn, status, JObj(fields)), message)
  {
    var lines := ReportLines(lib, msisdn, status, JObj(fields));
    var e := ErrorLine(message);
    assert lines[2] == e;
    var i := JoinHasPiece(lines, '\n', 2);
    OccursBetween("", ErrorLead, message, "`", "");
    assert "" + (ErrorLead + message + "`") + "" == e;
    OccursWithin(Render(lib, msisdn, status, JObj(fields)), e, message, i, |ErrorLead|);
  }

  /** A dict without `error` is shown as a fenced dump of at most 1501 characters, cut from the full dump. */
  lemma JsonBlockBounded(lib: Lib, msisdn: string, status: int, data: Json)
    requires data.JObj? && !IsErrorPayload(data)
    ensures var block := ReportLines(lib, msisdn, status, data)[3];
      && |block| <= JsonLimit + 1
      && (|lib.dumps(data)| <= JsonLimit ==> block == lib.dumps(data))
      && (|lib.dumps(data)| > JsonLimit ==> block == lib.dumps(data)[..JsonLimit] + Ellipsis)
  {
  }

  /** A transport failure (status 0, no body) renders as the "no payload" report. */
  lemma TransportFailureReport(lib: Lib, msisdn: string)
    ensures Render(lib, msisdn, 0, JNull)
         == HeaderLine(msisdn) + "\n" + "Status HTTP: `0`" + "\n" + NoPayloadLine
  {
    var lines := ReportLines(lib, msisdn, 0, JNull);
    assert lines == [HeaderLine(msisdn), StatusLine(0), NoPayloadLine];
    JoinFirstTwo(lines);
    assert lines[2..] == [NoPayloadLine];
    assert IntToDecimal(0) == "0";
  }
}
