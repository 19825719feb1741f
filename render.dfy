/**
 * The three renderers, at the level of what they hand to `print`,
 * `csv.writer` and `json.dumps`: the plain-text lines, the CSV rows as
 * field lists, and the JSON entries as string-keyed maps. The renderers
 * test ip and error for truthiness, so an empty string renders as absent.
 */
module Render {
  import opened Wrappers
  import opened Resolver

  const ARROW: string := " -> "
  const ERROR_ARROW: string := " -> ERROR: "
  const NO_IP: string := "-"
  const CSV_HEADER: seq<string> := ["domain", "ip", "error"]

  // ---------------------------------------------------------------- plain

  /** The lines `output_plain` prints for one result: none or one. */
  function PlainLines(r: Resolution, ipOnly: bool): seq<string>
  {
    if ipOnly then [if Truthy(r.ip) then r.ip.value else NO_IP]
    else if Truthy(r.ip) then [r.domain + ARROW + r.ip.value]
    else if Truthy(r.error) then [r.domain + ERROR_ARROW + r.error.value]
    else []
  }

  /** Everything `output_plain` prints for a result list, in order. */
  function PlainText(results: seq<Resolution>, ipOnly: bool): seq<string>
  {
    if results == [] then [] else PlainLines(results[0], ipOnly) + PlainText(results[1..], ipOnly)
  }

  /** `output_plain`: the lines printed, one result after the other. */
  method OutputPlain(results: seq<Resolution>, ipOnly: bool) returns (lines: seq<string>)
    ensures lines == PlainText(results, ipOnly)
  {
    lines := [];
    for i := 0 to |results|
      invariant lines == PlainText(results[..i], ipOnly)
    {
      var r := results[i];
      assert results[..i + 1] == results[..i] + [r];
      PlainTextAppend(results[..i], [r], ipOnly);
      PlainTextSingle(r, ipOnly);
      if ipOnly {
        if Truthy(r.ip) {
          lines := lines + [r.ip.value];
        } else {
          lines := lines + [NO_IP];
        }
      } else {
        if Truthy(r.ip) {
          lines := lines + [r.domain + ARROW + r.ip.value];
        } else if Truthy(r.error) {
          lines := lines + [r.domain + ERROR_ARROW + r.error.value];
        }
      }
    }
    assert results[..|results|] == results;
  }

  lemma PlainTextSingle(r: Resolution, ipOnly: bool)
    ensures PlainText([r], ipOnly) == PlainLines(r, ipOnly)
  {
    assert [r][1..] == [];
  }

  /** The output for a list is the output for its parts, one after the other. */
  lemma {:induction false} PlainTextAppend(a: seq<Resolution>, b: seq<Resolution>, ipOnly: bool)
    ensures PlainText(a + b, ipOnly) == PlainText(a, ipOnly) + PlainText(b, ipOnly)
  {
    if a == [] {
      assert a + b == b;
    } else {
      assert (a + b)[0] == a[0] && (a + b)[1..] == a[1..] + b;
      PlainTextAppend(a[1..], b, ipOnly);
      var h := PlainLines(a[0], ipOnly);
      assert h + (PlainText(a[1..], ipOnly) + PlainText(b, ipOnly))
          == (h + PlainText(a[1..], ipOnly)) + PlainText(b, ipOnly);
    }
  }

  /** IP-only mode prints exactly one line per result: its ip, or "-" when it has none. */
  lemma {:induction false} IpOnlyLinePerResult(results: seq<Resolution>)
    ensures |PlainText(results, true)| == |results|
    ensures forall i :: 0 <= i < |results| ==>
      PlainText(results, true)[i] == if Truthy(results[i].ip) then results[i].ip.value else NO_IP
  {
    if results != [] {
      IpOnlyLinePerResult(results[1..]);
      assert forall i :: 1 <= i < |results| ==> results[i] == results[1..][i - 1];
    }
  }

  /**
   * Normal mode prints at most one line per result, and one for every
   * result exactly when each has a non-empty ip or a non-empty error.
   */
  lemma {:induction false} PlainLineCount(results: seq<Resolution>)
    ensures |PlainText(results, false)| <= |results|
    ensures |PlainText(results, false)| == |results|
       <==> forall i :: 0 <= i < |results| ==> Truthy(results[i].ip) || Truthy(results[i].error)
  {
    if results != [] {
      PlainLineCount(results[1..]);
      assert forall i :: 1 <= i < |results| ==> results[i] == results[1..][i - 1];
    }
  }

  // ------------------------------------------------------------------ csv

  /** `ip or ''`: an absent or empty field is written as the empty string. */
  function OrEmpty(o: Option<string>): string
  {
    if Truthy(o) then o.value else ""
  }

  /** The field list handed to `writer.writerow` for one result. */
  function CsvRow(r: Resolution): seq<string>
  {
    [r.domain, OrEmpty(r.ip), OrEmpty(r.error)]
  }

  /** `output_csv`: the header row, then one row per result, in order. */
  method OutputCsv(results: seq<Resolution>) returns (rows: seq<seq<string>>)
    ensures |rows| == |results| + 1
    ensures rows[0] == CSV_HEADER
    ensures forall i :: 0 <= i < |results| ==> rows[i + 1] == CsvRow(results[i])
    ensures forall i :: 0 <= i < |rows| ==> |rows[i]| == |CSV_HEADER|
  {
    rows := [CSV_HEADER];
    for i := 0 to |results|
      invariant |rows| == i + 1
      invariant rows[0] == CSV_HEADER
      invariant forall j :: 0 <= j < i ==> rows[j + 1] == CsvRow(results[j])
      invariant forall j :: 0 <= j < |rows| ==> |rows[j]| == |CSV_HEADER|
    {
      var r := results[i];
      rows := rows + [[r.domain, OrEmpty(r.ip), OrEmpty(r.error)]];
    }
  }

  /** An empty CSV field reads back as an absent value. */
  function NonEmpty(field: string): Option<string>
  {
    if field == "" then None else Some(field)
  }

  /** Reading a CSV row back into a result. */
  function FromCsvRow(row: seq<string>): Option<Resolution>
  {
    if |row| != 3 then None else Some(Resolution(row[0], NonEmpty(row[1]), NonEmpty(row[2])))
  }

  /**
   * A result survives a CSV round trip iff neither its ip nor its error is
   * the empty string: `ip or ''` cannot tell an empty string from None.
   */
  lemma CsvRoundTrip(r: Resolution)
    ensures FromCsvRow(CsvRow(r)) == Some(r) <==> r.ip != Some("") && r.error != Some("")
  {
  }

  // ----------------------------------------------------------------- json

  /** The dict built for one result: `domain` always, `ip` and `error` when truthy. */
  function JsonEntry(r: Resolution): (entry: map<string, string>)
    ensures entry.Keys == {"domain"} + (if Truthy(r.ip) then {"ip"} else {}) + (if Truthy(r.error) then {"error"} else {})
    ensures entry["domain"] == r.domain
    ensures "ip" in entry ==> entry["ip"] == r.ip.value
    ensures "error" in entry ==> entry["error"] == r.error.value
  {
    var withDomain := map["domain" := r.domain];
    var withIp := if Truthy(r.ip) then withDomain["ip" := r.ip.value] else withDomain;
    if Truthy(r.error) then withIp["error" := r.error.value] else withIp
  }

  /** `output_json`: one entry per result, in order. */
  method OutputJson(results: seq<Resolution>) returns (data: seq<map<string, string>>)
    ensures |data| == |results|
    ensures forall i :: 0 <= i < |results| ==> data[i] == JsonEntry(results[i])
  {
    data := [];
    for i := 0 to |results|
      invariant |data| == i
      invariant forall j :: 0 <= j < i ==> data[j] == JsonEntry(results[j])
    {
      var r := results[i];
      var entry := map["domain" := r.domain];
      if Truthy(r.ip) {
        entry := entry["ip" := r.ip.value];
      }
      if Truthy(r.error) {
        entry := entry["error" := r.error.value];
      }
      data := data + [entry];
    }
  }

  /** Reading a JSON entry back into a result. */
  function FromJsonEntry(entry: map<string, string>): Option<Resolution>
  {
    if "domain" !in entry then None
    else Some(Resolution(entry["domain"],
                         if "ip" in entry then Some(entry["ip"]) else None,
                         if "error" in entry then Some(entry["error"]) else None))
  }

  /**
   * A result survives a JSON round trip iff neither its ip nor its error is
   * the empty string; no key is ever added that the result did not carry.
   */
  lemma JsonRoundTrip(r: Resolution)
    ensures FromJsonEntry(JsonEntry(r)) == Some(r) <==> r.ip != Some("") && r.error != Some("")
    ensures FromJsonEntry(JsonEntry(r)).Some?
  {
  }

  /** CSV and JSON carry the same information about a result. */
  lemma CsvAgreesWithJson(r: Resolution)
    ensures FromCsvRow(CsvRow(r)) == FromJsonEntry(JsonEntry(r))
  {
  }
}
