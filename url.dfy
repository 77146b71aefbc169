/** `getUrl` (static/script.js): the request path for the statistics
    endpoint, built by appending one optional parameter after another. */
module Url {
  import opened Text

  /** A string argument is truthy when it is not empty. */
  predicate Truthy(s: string) {
    |s| > 0
  }

  /** An optional `key` + value part of the path. */
  function Part(key: string, v: string): string {
    if Truthy(v) then key + v else ""
  }

  /** The path `getUrl` returns. */
  function UrlSpec(machineId: string, fromDate: string, toDate: string): (u: string)
    ensures |u| >= 6 && u[..6] == "/stats"
    ensures !Truthy(machineId) && !Truthy(fromDate) && !Truthy(toDate) ==> u == "/stats"
  {
    "/stats" + Part("?machine_id=", machineId) + Part("&from=", fromDate) + Part("&to=", toDate)
  }

  method GetUrl(machineId: string, fromDate: string, toDate: string) returns (url: string)
    ensures url == UrlSpec(machineId, fromDate, toDate)
  {
    url := "/stats";
    if Truthy(machineId) {
      url := url + ("?machine_id=" + machineId);
    } else {
      assert url == url + Part("?machine_id=", machineId);
    }
    if Truthy(fromDate) {
      url := url + ("&from=" + fromDate);
    } else {
      assert url == url + Part("&from=", fromDate);
    }
    if Truthy(toDate) {
      url := url + ("&to=" + toDate);
    } else {
      assert url == url + Part("&to=", toDate);
    }
  }

  /** Every path starts with `/stats`. */
  lemma UrlStartsWithStats(machineId: string, fromDate: string, toDate: string)
    ensures StartsWith(UrlSpec(machineId, fromDate, toDate), "/stats")
  {
    var u := UrlSpec(machineId, fromDate, toDate);
    assert u == "/stats" + u[6..];
  }

  /** The query string is opened with `?` exactly when there is a machine id. */
  lemma UrlQueryMarkIffMachine(machineId: string, fromDate: string, toDate: string)
    ensures var u := UrlSpec(machineId, fromDate, toDate);
      (|u| > 6 && u[6] == '?') <==> Truthy(machineId)
  {
    var u := UrlSpec(machineId, fromDate, toDate);
    var m := Part("?machine_id=", machineId);
    var rest1 := Part("&from=", fromDate) + Part("&to=", toDate);
    UrlParts(machineId, fromDate, toDate);
    ToPartShape(toDate);
    FromPartShape(fromDate, Part("&to=", toDate));
    assert u[6..] == m + rest1;
    if Truthy(machineId) {
      assert u[6..][0] == m[0] == '?';
    } else {
      assert u[6..] == rest1;
      assert |u| > 6 ==> u[6..][0] == '&';
    }
  }

  /** With no truthy argument the path is the bare endpoint. */
  lemma UrlNoArguments()
    ensures UrlSpec("", "", "") == "/stats"
  {
  }

  /** Without a machine id the date parameters still follow, so the path has
      `&` where a query string would need `?`. */
  lemma UrlDatesWithoutMachine(fromDate: string, toDate: string)
    requires Truthy(fromDate)
    ensures UrlSpec("", fromDate, toDate)
         == "/stats&from=" + fromDate + (if Truthy(toDate) then "&to=" + toDate else "")
  {
  }

  /** Read one optional `key` + value part: the value runs up to the next
      `&`. Without the key the value is empty and nothing is consumed. */
  function ReadField(s: string, key: string): (string, string) {
    if StartsWith(s, key) then
      var v := TakeUntil(s[|key|..], '&');
      (v, s[|key| + |v|..])
    else ("", s)
  }

  /** Reading the path back: the machine id and the from date run up to the
      next `&`, the to date to the end. */
  function UrlFields(u: string): (string, string, string)
    requires StartsWith(u, "/stats")
  {
    var (m, rest1) := ReadField(u[6..], "?machine_id=");
    var (f, rest2) := ReadField(rest1, "&from=");
    var t := if StartsWith(rest2, "&to=") then rest2[4..] else "";
    (m, f, t)
  }

  lemma ReadFieldPart(key: string, v: string, rest: string)
    requires '&' !in v
    requires |rest| == 0 || rest[0] == '&'
    requires !StartsWith(rest, key)
    ensures ReadField(Part(key, v) + rest, key) == (v, rest)
  {
    if Truthy(v) {
      var s := key + v + rest;
      assert Part(key, v) + rest == s;
      assert StartsWith(s, key);
      assert s[|key|..] == v + rest;
      TakeUntilConcat(v, rest, '&');
      assert s[|key| + |v|..] == rest;
    } else {
      assert Part(key, v) + rest == rest;
    }
  }

  /** The three arguments can be read back from the path as long as the
      machine id and the from date contain no `&`. */
  lemma UrlRoundTrip(machineId: string, fromDate: string, toDate: string)
    requires '&' !in machineId && '&' !in fromDate
    ensures StartsWith(UrlSpec(machineId, fromDate, toDate), "/stats")
    ensures UrlFields(UrlSpec(machineId, fromDate, toDate)) == (machineId, fromDate, toDate)
  {
    UrlStartsWithStats(machineId, fromDate, toDate);
    var toPart := Part("&to=", toDate);
    var fromPart := Part("&from=", fromDate);
    var rest1 := fromPart + toPart;
    UrlParts(machineId, fromDate, toDate);
    ToPartShape(toDate);
    ReadFieldPart("&from=", fromDate, toPart);
    FromPartShape(fromDate, toPart);
    ReadFieldPart("?machine_id=", machineId, rest1);
    var rest2 := ReadField(rest1, "&from=").1;
    assert rest2 == toPart;
    if Truthy(toDate) {
      assert StartsWith(toPart, "&to=");
      assert toPart[4..] == toDate;
    }
  }

  lemma UrlParts(machineId: string, fromDate: string, toDate: string)
    ensures UrlSpec(machineId, fromDate, toDate)[6..]
         == Part("?machine_id=", machineId) + (Part("&from=", fromDate) + Part("&to=", toDate))
  {
    var m, f, t := Part("?machine_id=", machineId), Part("&from=", fromDate), Part("&to=", toDate);
    assert UrlSpec(machineId, fromDate, toDate) == "/stats" + (m + (f + t));
  }

  /** The `to` part is empty or starts with `&`, and is no `from` part. */
  lemma ToPartShape(toDate: string)
    ensures var p := Part("&to=", toDate);
      && (|p| == 0 || p[0] == '&')
      && !StartsWith(p, "&from=")
  {
    var p := Part("&to=", toDate);
    assert |p| < 6 || p[..6][1] == 't';
  }

  /** The rest after the machine id is empty or starts with `&`. */
  lemma FromPartShape(fromDate: string, toPart: string)
    requires |toPart| == 0 || toPart[0] == '&'
    ensures var r := Part("&from=", fromDate) + toPart;
      && (|r| == 0 || r[0] == '&')
      && !StartsWith(r, "?machine_id=")
  {
    var r := Part("&from=", fromDate) + toPart;
    assert |r| < 12 || r[..12][0] == '&';
  }
}
