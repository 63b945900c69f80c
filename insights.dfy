/** Reading the insights a language model returns: the reply is stripped,
    one Markdown code fence is taken off, the remaining text is decoded as
    JSON, and the well-formed items are kept. The JSON decoder is a
    parameter (None for a decoding error). */
module Insights {
  import opened Wrappers

  datatype Json =
    | JNull
    | JBool(b: bool)
    | JNumber(n: real)
    | JString(s: string)
    | JArray(items: seq<Json>)
    | JObject(fields: map<string, Json>)

  datatype Insight = Insight(insight: Json, explanation: Json, confidenceScore: Json)

  /** Iterating over a number, a boolean or null raises a TypeError. */
  datatype ParseError = NotIterable

  // ---------------------------------------------------------------------
  // Stripping

  /** The characters Python's `str.isspace()` accepts, which `str.strip()`
      removes. */
  predicate IsSpace(c: char) {
    var n := c as int;
    || n == 0x20 || 0x09 <= n <= 0x0D || 0x1C <= n <= 0x1F
    || n == 0x85 || n == 0xA0 || n == 0x1680 || 0x2000 <= n <= 0x200A
    || n == 0x2028 || n == 0x2029 || n == 0x202F || n == 0x205F || n == 0x3000
  }

  predicate AllSpace(s: string) {
    forall i :: 0 <= i < |s| ==> IsSpace(s[i])
  }

  /** Text that strip leaves alone: empty, or not starting or ending with
      whitespace. */
  predicate Trimmed(s: string) {
    s == [] || (!IsSpace(s[0]) && !IsSpace(s[|s| - 1]))
  }

  /** `lstrip()`: the text from the first non-whitespace character on. */
  function TrimLeft(s: string): (r: string)
    ensures |r| <= |s| && r == s[|s| - |r|..]
    ensures r == [] || !IsSpace(r[0])
  {
    if s != [] && IsSpace(s[0]) then TrimLeft(s[1..]) else s
  }

  /** `rstrip()`: the text up to the last non-whitespace character. */
  function TrimRight(s: string): (r: string)
    ensures |r| <= |s| && r == s[..|r|]
    ensures r == [] || !IsSpace(r[|r| - 1])
  {
    if s != [] && IsSpace(s[|s| - 1]) then TrimRight(s[..|s| - 1]) else s
  }

  /** `str.strip()`: the text between the leading and the trailing
      whitespace. */
  function Strip(s: string): (r: string)
    ensures Trimmed(r)
  {
    TrimRight(TrimLeft(s))
  }

  /** Only whitespace is removed on either side. */
  lemma {:induction false} TrimLeftRemovesSpace(s: string)
    ensures AllSpace(s[..|s| - |TrimLeft(s)|])
  {
    if s != [] && IsSpace(s[0]) {
      TrimLeftRemovesSpace(s[1..]);
      var k := |s| - |TrimLeft(s)|;
      assert s[..k] == [s[0]] + s[1..][..k - 1];
    }
  }

  lemma {:induction false} TrimRightRemovesSpace(s: string)
    ensures AllSpace(s[|TrimRight(s)|..])
  {
    if s != [] && IsSpace(s[|s| - 1]) {
      var init := s[..|s| - 1];
      TrimRightRemovesSpace(init);
      var k := |TrimRight(s)|;
      assert s[k..] == init[k..] + [s[|s| - 1]];
    }
  }

  /** Strip keeps a slice of its input and removes only whitespace around it. */
  lemma StripRemovesOnlySpace(s: string)
    ensures var r := Strip(s); exists i :: 0 <= i <= i + |r| <= |s| && r == s[i..i + |r|] && AllSpace(s[..i]) && AllSpace(s[i + |r|..])
  {
    var left := TrimLeft(s);
    var r := TrimRight(left);
    var i := |s| - |left|;
    TrimLeftRemovesSpace(s);
    TrimRightRemovesSpace(left);
    assert left == s[i..];
    assert r == left[..|r|];
    assert s[i..i + |r|] == left[..|r|];
    assert s[i + |r|..] == left[|r|..];
    assert 0 <= i <= i + |r| <= |s| && r == s[i..i + |r|] && AllSpace(s[..i]) && AllSpace(s[i + |r|..]);
  }

  lemma {:induction false} TrimLeftSpaces(p: string, x: string)
    requires AllSpace(p) && (x == [] || !IsSpace(x[0]))
    ensures TrimLeft(p + x) == x
  {
    if p == [] {
      assert p + x == x;
    } else {
      assert (p + x)[1..] == p[1..] + x;
      TrimLeftSpaces(p[1..], x);
    }
  }

  lemma {:induction false} TrimRightSpaces(x: string, q: string)
    requires AllSpace(q) && (x == [] || !IsSpace(x[|x| - 1]))
    ensures TrimRight(x + q) == x
  {
    if q == [] {
      assert x + q == x;
    } else {
      var q' := q[..|q| - 1];
      assert (x + q)[..|x + q| - 1] == x + q';
      TrimRightSpaces(x, q');
    }
  }

  /** Whitespace around trimmed text is exactly what strip removes. */
  lemma StripSurrounded(p: string, x: string, q: string)
    requires AllSpace(p) && AllSpace(q) && Trimmed(x)
    ensures Strip(p + x + q) == x
  {
    assert p + x + q == p + (x + q);
    if x == [] {
      assert x + q == q;
      TrimLeftSpaces(p + q, []);
      assert p + q + [] == p + q;
      TrimRightSpaces([], []);
    } else {
      TrimLeftSpaces(p, x + q);
      TrimRightSpaces(x, q);
    }
  }

  /** Stripping twice is stripping once. */
  lemma StripIdempotent(s: string)
    ensures Strip(Strip(s)) == Strip(s)
  {
    var r := Strip(s);
    StripSurrounded([], r, []);
    assert [] + r + [] == r;
  }

  // ---------------------------------------------------------------------
  // Code fences

  predicate StartsWith(s: string, prefix: string) {
    |prefix| <= |s| && s[..|prefix|] == prefix
  }

  predicate EndsWith(s: string, suffix: string) {
    |suffix| <= |s| && s[|s| - |suffix|..] == suffix
  }

  const JsonFence := "```json"
  const Fence := "```"

  /** A leading "```json" is removed, or else a leading "```". */
  function DropOpeningFence(s: string): (r: string)
    ensures StartsWith(s, JsonFence) ==> r == s[7..]
    ensures !StartsWith(s, JsonFence) && StartsWith(s, Fence) ==> r == s[3..]
    ensures !StartsWith(s, Fence) ==> r == s
  {
    if StartsWith(s, JsonFence) then s[7..]
    else if StartsWith(s, Fence) then s[3..]
    else s
  }

  /** A trailing "```" is removed. */
  function DropClosingFence(s: string): (r: string)
    ensures EndsWith(s, Fence) ==> r == s[..|s| - 3]
    ensures !EndsWith(s, Fence) ==> r == s
  {
    if EndsWith(s, Fence) then s[..|s| - 3] else s
  }

  /** The JSON text of a reply: stripped, then at most one opening and one
      closing fence removed, then stripped again. */
  function Unfenced(response: string): (r: string)
    ensures Trimmed(r)
  {
    Strip(DropClosingFence(DropOpeningFence(Strip(response))))
  }

  lemma DropJsonFence(body: string)
    ensures DropClosingFence(DropOpeningFence(JsonFence + body + Fence)) == body
  {
    var x := JsonFence + body + Fence;
    assert x[..7] == JsonFence && x[7..] == body + Fence;
    var s' := body + Fence;
    assert s'[|s'| - 3..] == Fence && s'[..|s'| - 3] == body;
  }

  lemma DropBareFence(body: string)
    requires !StartsWith(body, "json")
    ensures DropClosingFence(DropOpeningFence(Fence + body + Fence)) == body
  {
    var x := Fence + body + Fence;
    if |body| >= 4 {
      assert x[3..7] == body[..4];
    } else {
      assert x[3 + |body|] == '`' && JsonFence[3 + |body|] != '`';
    }
    assert !StartsWith(x, JsonFence);
    assert x[..3] == Fence && x[3..] == body + Fence;
    var s' := body + Fence;
    assert s'[|s'| - 3..] == Fence && s'[..|s'| - 3] == body;
  }

  /** A reply fenced as JSON, with any whitespace around the fence, yields
      the stripped text inside the fence. */
  lemma JsonFenceRemoved(p: string, body: string, q: string)
    requires AllSpace(p) && AllSpace(q)
    ensures Unfenced(p + JsonFence + body + Fence + q) == Strip(body)
  {
    var x := JsonFence + body + Fence;
    assert p + JsonFence + body + Fence + q == p + x + q;
    StripSurrounded(p, x, q);
    DropJsonFence(body);
  }

  /** A reply in a bare fence yields the stripped text inside it, unless
      that text starts with "json", which is then taken as the fence's
      language tag. */
  lemma BareFenceRemoved(p: string, body: string, q: string)
    requires AllSpace(p) && AllSpace(q) && !StartsWith(body, "json")
    ensures Unfenced(p + Fence + body + Fence + q) == Strip(body)
  {
    var x := Fence + body + Fence;
    assert p + Fence + body + Fence + q == p + x + q;
    StripSurrounded(p, x, q);
    DropBareFence(body);
  }

  /** A reply without fences is only stripped. */
  lemma NoFenceOnlyStripped(response: string)
    requires !StartsWith(Strip(response), Fence) && !EndsWith(Strip(response), Fence)
    ensures Unfenced(response) == Strip(response)
  {
    StripIdempotent(response);
  }

  // ---------------------------------------------------------------------
  // Selecting the items

  /** An item kept by the parser: a JSON object with an "insight" key. */
  predicate IsInsightItem(j: Json) {
    j.JObject? && "insight" in j.fields
  }

  function FieldOr(fields: map<string, Json>, key: string, default: Json): Json {
    if key in fields then fields[key] else default
  }

  /** The kept record: the insight, the explanation (default "") and the
      confidence score (default 5). */
  function ToInsight(j: Json): (r: Insight)
    requires IsInsightItem(j)
    ensures r.insight == j.fields["insight"]
    ensures "explanation" !in j.fields ==> r.explanation == JString("")
    ensures "confidence_score" !in j.fields ==> r.confidenceScore == JNumber(5.0)
  {
    Insight(j.fields["insight"], FieldOr(j.fields, "explanation", JString("")),
            FieldOr(j.fields, "confidence_score", JNumber(5.0)))
  }

  /** The records of the insight items, in input order. */
  function KeepInsights(items: seq<Json>): (r: seq<Insight>)
    ensures |r| <= |items|
  {
    if items == [] then []
    else
      var last := items[|items| - 1];
      KeepInsights(items[..|items| - 1]) + (if IsInsightItem(last) then [ToInsight(last)] else [])
  }

  /** Items are kept independently of each other and in order: the kept
      records of a concatenation are those of each part, concatenated. */
  lemma {:induction false} KeepInsightsAppend(a: seq<Json>, b: seq<Json>)
    ensures KeepInsights(a + b) == KeepInsights(a) + KeepInsights(b)
  {
    if b == [] {
      assert a + b == a;
    } else {
      var b' := b[..|b| - 1];
      assert (a + b)[..|a + b| - 1] == a + b';
      KeepInsightsAppend(a, b');
    }
  }

  /** One item yields its record when it is an insight item, and nothing
      otherwise. */
  lemma KeepOne(j: Json)
    ensures KeepInsights([j]) == if IsInsightItem(j) then [ToInsight(j)] else []
  {
    assert [j][..0] == [];
  }

  /** Every kept record is the record of an insight item of the input. */
  lemma {:induction false} KeptFromInput(items: seq<Json>)
    ensures forall r :: r in KeepInsights(items) ==> exists j :: j in items && IsInsightItem(j) && r == ToInsight(j)
  {
    if items != [] {
      var init := items[..|items| - 1];
      KeptFromInput(init);
      assert forall j :: j in init ==> j in items;
      assert items[|items| - 1] in items;
    }
  }

  /** The JSON an insight record is written as by `add_insights_to_statistics`. */
  function InsightJson(i: Insight): (j: Json)
    ensures IsInsightItem(j) && ToInsight(j) == i
  {
    JObject(map["insight" := i.insight, "explanation" := i.explanation, "confidence_score" := i.confidenceScore])
  }

  function InsightsJson(insights: seq<Insight>): (js: seq<Json>)
    ensures |js| == |insights| && forall k :: 0 <= k < |insights| ==> js[k] == InsightJson(insights[k])
  {
    seq(|insights|, k requires 0 <= k < |insights| => InsightJson(insights[k]))
  }

  /** Written records read back as themselves. */
  lemma {:induction false} KeepWrittenInsights(insights: seq<Insight>)
    ensures KeepInsights(InsightsJson(insights)) == insights
  {
    if insights != [] {
      var init := insights[..|insights| - 1];
      KeepWrittenInsights(init);
      assert InsightsJson(insights)[..|insights| - 1] == InsightsJson(init);
    }
  }

  /** What `parse_insights_response` makes of the decoded reply: [] when
      decoding failed; the kept records of an array; [] for an object or a
      string (iterating them yields keys or characters, never objects); an
      error for a number, a boolean or null. */
  function SelectInsights(data: Option<Json>): (r: Result<seq<Insight>, ParseError>)
    ensures data.None? ==> r == Ok([])
    ensures r.Err? <==> data.Some? && (data.value.JNumber? || data.value.JBool? || data.value.JNull?)
  {
    match data
    case None => Ok([])
    case Some(JArray(items)) => Ok(KeepInsights(items))
    case Some(JObject(_)) => Ok([])
    case Some(JString(_)) => Ok([])
    case Some(_) => Err(NotIterable)
  }

  /** The result for a reply, given the JSON decoder. */
  function ParseInsights(response: string, decode: string -> Option<Json>): Result<seq<Insight>, ParseError> {
    SelectInsights(decode(Unfenced(response)))
  }

  /** The records never outnumber the decoded items, and only an array
      yields any. */
  lemma SelectNeverLonger(data: Option<Json>)
    ensures var r := SelectInsights(data);
      r.Ok? && r.value != [] ==> data.Some? && data.value.JArray? && |r.value| <= |data.value.items|
  {
  }

  lemma PaddedJsonFence(encoded: string, p: string, q: string)
    requires Trimmed(encoded) && AllSpace(p) && AllSpace(q)
    ensures Unfenced(JsonFence + p + encoded + q + Fence) == encoded
  {
    var body := p + encoded + q;
    var x := JsonFence + body + Fence;
    assert JsonFence + p + encoded + q + Fence == x;
    assert [] + x + [] == x;
    StripSurrounded([], x, []);
    DropJsonFence(body);
    StripSurrounded(p, encoded, q);
  }

  /** A reply whose unfenced text decodes to the written records parses
      back to them. */
  lemma ParseOfUnfenced(reply: string, insights: seq<Insight>, encoded: string, decode: string -> Option<Json>)
    requires Unfenced(reply) == encoded
    requires decode(encoded) == Some(JArray(InsightsJson(insights)))
    ensures ParseInsights(reply, decode) == Ok(insights)
  {
    var items := InsightsJson(insights);
    assert ParseInsights(reply, decode) == SelectInsights(Some(JArray(items)));
    SelectArray(items);
    KeepWrittenInsights(insights);
  }

  lemma SelectArray(items: seq<Json>)
    ensures SelectInsights(Some(JArray(items))) == Ok(KeepInsights(items))
  {
  }

  /** Round trip: a reply holding, in a JSON fence and padded by any
      whitespace, the encoding of the written records parses back to those
      records, whenever the decoder inverts the encoder on it. */
  lemma FencedRoundTrip(insights: seq<Insight>, encoded: string, p: string, q: string, decode: string -> Option<Json>)
    requires Trimmed(encoded) && AllSpace(p) && AllSpace(q)
    requires decode(encoded) == Some(JArray(InsightsJson(insights)))
    ensures ParseInsights(JsonFence + p + encoded + q + Fence, decode) == Ok(insights)
  {
    PaddedJsonFence(encoded, p, q);
    ParseOfUnfenced(JsonFence + p + encoded + q + Fence, insights, encoded, decode);
  }

  /** `parse_insights_response`: the reply text is reassigned step by step,
      decoded, and the kept records appended item by item. */
  method ParseInsightsResponse(response: string, decode: string -> Option<Json>)
    returns (r: Result<seq<Insight>, ParseError>)
    ensures r == ParseInsights(response, decode)
  {
    var jsonStr := CleanResponse(response);
    var data := decode(jsonStr);
    r := SelectDecoded(data);
  }

  /** The branches on the decoded reply, the records of an array collected
      one by one. */
  method SelectDecoded(data: Option<Json>) returns (r: Result<seq<Insight>, ParseError>)
    ensures r == SelectInsights(data)
  {
    if data.None? {
      return Ok([]);
    }
    match data.value {
      case JArray(items) =>
        var insights := CollectInsights(items);
        r := Ok(insights);
      case JObject(_) => r := Ok([]);
      case JString(_) => r := Ok([]);
      case _ => r := Err(NotIterable);
    }
  }

  /** The stripping and fence removal, one reassignment at a time. */
  method CleanResponse(response: string) returns (jsonStr: string)
    ensures jsonStr == Unfenced(response)
  {
    jsonStr := Strip(response);
    jsonStr := RemoveOpeningFence(jsonStr);
    jsonStr := RemoveClosingFence(jsonStr);
    jsonStr := Strip(jsonStr);
  }

  /** The `startswith` branches of `clean_response`. */
  method RemoveOpeningFence(s: string) returns (r: string)
    ensures r == DropOpeningFence(s)
  {
    r := s;
    if StartsWith(s, JsonFence) {
      r := s[7..];
    } else if StartsWith(s, Fence) {
      r := s[3..];
    }
  }

  /** The `endswith` branch of `clean_response`. */
  method RemoveClosingFence(s: string) returns (r: string)
    ensures r == DropClosingFence(s)
  {
    r := s;
    if EndsWith(s, Fence) {
      r := s[..|s| - 3];
    }
  }

  /** The loop over the decoded array. */
  method CollectInsights(items: seq<Json>) returns (insights: seq<Insight>)
    ensures insights == KeepInsights(items)
  {
    insights := [];
    var i := 0;
    while i < |items|
      invariant 0 <= i <= |items|
      invariant insights == KeepInsights(items[..i])
    {
      var item := items[i];
      assert items[..i + 1][..i] == items[..i];
      if item.JObject? && "insight" in item.fields {
        insights := insights + [ToInsight(item)];
      }
      i := i + 1;
    }
    assert items[..|items|] == items;
  }

  /** `add_insights_to_statistics`: a copy of the statistics with the
      written records under "insights" and every other key unchanged. */
  function AddInsightsToStatistics(statistics: map<string, Json>, insights: seq<Insight>): (r: map<string, Json>)
    ensures r.Keys == statistics.Keys + {"insights"}
    ensures forall k :: k in statistics && k != "insights" ==> r[k] == statistics[k]
    ensures r["insights"].JArray? && KeepInsights(r["insights"].items) == insights
  {
    KeepWrittenInsights(insights);
    statistics["insights" := JArray(InsightsJson(insights))]
  }
}
