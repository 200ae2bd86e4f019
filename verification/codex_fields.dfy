/** The per-payload lookups of the Codex SSE logger: `_extract_model`, the
    reasoning-effort lookup the `response` hook does inline, and the URL
    test `_looks_like_codex`. Python's `None` is `JNull` throughout. */
module CodexFields {
  import opened Wrappers
  import opened Json
  import opened Text

  const CodexHost: string := "chatgpt.com"
  const CodexPath: string := "/backend-api/codex"

  // ------------------------------------------------------------ the model

  /** `_extract_model(payload)`: the top-level `model` when truthy, else the
      nested `response.model` when `response` is a dict (whatever that
      value is, falsy ones included), else `None`. */
  function ExtractModel(payload: Json): (m: Json)
    requires payload.JObject?
    ensures Truthy(Get(payload.fields, "model")) ==> m == payload.fields["model"]
    ensures !Truthy(Get(payload.fields, "model")) ==>
      var response := Get(payload.fields, "response");
      if response.JObject? then m == Get(response.fields, "model") else m == JNull
  {
    var model := Get(payload.fields, "model");
    if Truthy(model) then model
    else
      var response := Get(payload.fields, "response");
      if response.JObject? then Get(response.fields, "model") else JNull
  }

  /** The places a Codex payload may carry its model, in the order they are
      consulted: top level, then inside the `response` object. */
  function ModelCandidates(payload: Json): (c: seq<Json>)
    requires payload.JObject?
    ensures 1 <= |c| <= 2
    ensures c[0] == Get(payload.fields, "model")
  {
    var response := Get(payload.fields, "response");
    [Get(payload.fields, "model")]
      + (if response.JObject? then [Get(response.fields, "model")] else [])
  }

  /** The first truthy value in `vs`, if any. */
  function FirstTruthy(vs: seq<Json>): (r: Option<Json>)
    ensures r.Some? ==> Truthy(r.value) && r.value in vs
    ensures r.Some? ==>
      exists k :: 0 <= k < |vs| && vs[k] == r.value && forall j :: 0 <= j < k ==> !Truthy(vs[j])
    ensures r.None? <==> forall k :: 0 <= k < |vs| ==> !Truthy(vs[k])
  {
    if vs == [] then None
    else if Truthy(vs[0]) then Some(vs[0])
    else
      var r := FirstTruthy(vs[1..]);
      if r.Some? then
        var k :| 0 <= k < |vs| - 1 && vs[1..][k] == r.value
          && forall j :: 0 <= j < k ==> !Truthy(vs[1..][j]);
        assert forall j :: 0 <= j < k + 1 ==> !Truthy(vs[j]) by {
          forall j | 0 <= j < k + 1 ensures !Truthy(vs[j]) {
            if j > 0 { assert vs[j] == vs[1..][j - 1]; }
          }
        }
        assert vs[k + 1] == r.value;
        r
      else r
  }

  /** What the `response` hook acts on (`if model:`): `_extract_model`'s
      answer is truthy exactly when some candidate place holds a truthy
      model, and then it is the first such one. */
  lemma ExtractModelIsFirstTruthyCandidate(payload: Json)
    requires payload.JObject?
    ensures Truthy(ExtractModel(payload)) <==> FirstTruthy(ModelCandidates(payload)).Some?
    ensures Truthy(ExtractModel(payload)) ==>
      ExtractModel(payload) == FirstTruthy(ModelCandidates(payload)).value
  {
    var c := ModelCandidates(payload);
    if !Truthy(c[0]) && |c| == 2 {
      assert c[1..] == [c[1]];
      assert FirstTruthy(c) == FirstTruthy([c[1]]);
    }
  }

  /** A payload that names no model anywhere reports `None`. */
  lemma NoModelAnywhere(payload: Json)
    requires payload.JObject?
    requires "model" !in payload.fields
    requires "response" !in payload.fields
    ensures ExtractModel(payload) == JNull
  {
  }

  /** The Codex `response.created` shape: the model sits inside `response`. */
  lemma ModelOfResponseCreated()
    ensures ExtractModel(JObject(map[
      "type" := JString("response.created"),
      "response" := JObject(map["model" := JString("gpt-5.1-codex")])
    ])) == JString("gpt-5.1-codex")
  {
  }

  // --------------------------------------------------- the reasoning effort

  /** `reasoning.get("effort") or reasoning.get("effort_level")` when the
      reasoning value is a dict, else `None`. */
  function EffortOf(reasoning: Json): (e: Json)
    ensures !reasoning.JObject? ==> e == JNull
    ensures reasoning.JObject? && Truthy(Get(reasoning.fields, "effort")) ==>
      e == reasoning.fields["effort"]
    ensures reasoning.JObject? && !Truthy(Get(reasoning.fields, "effort")) ==>
      e == Get(reasoning.fields, "effort_level")
  {
    if reasoning.JObject? then
      Or(Get(reasoning.fields, "effort"), Get(reasoning.fields, "effort_level"))
    else JNull
  }

  /** The dict `response.get("metadata", {})` must be for its `.get` to
      succeed; a present non-dict value (`null` included) makes it raise. */
  predicate MetadataRaises(response: map<string, Json>) {
    "metadata" in response && !response["metadata"].JObject?
  }

  /** The reasoning-effort lookup of the `response` hook: when `response` is
      a dict, take `response.reasoning`, or failing that
      `response.metadata.reasoning` (with a missing `metadata` read as
      `{}`), and report its `effort` or `effort_level`. */
  function ReasoningEffort(payload: Json): (r: Attempt<Json>)
    requires payload.JObject?
    ensures r.AttributeError? <==>
      var response := Get(payload.fields, "response");
      response.JObject? && !Truthy(Get(response.fields, "reasoning")) && MetadataRaises(response.fields)
    ensures !Get(payload.fields, "response").JObject? ==> r == Returned(JNull)
    ensures r.Returned? && Get(payload.fields, "response").JObject? ==>
      var response := Get(payload.fields, "response").fields;
      r.value == EffortOf(
        if Truthy(Get(response, "reasoning")) then response["reasoning"]
        else Get(GetOr(response, "metadata", JObject(map[])).fields, "reasoning"))
  {
    var response := Get(payload.fields, "response");
    if !response.JObject? then Returned(JNull)
    else
      var direct := Get(response.fields, "reasoning");
      if Truthy(direct) then Returned(EffortOf(direct))
      else
        var metadata := GetOr(response.fields, "metadata", JObject(map[]));
        if !metadata.JObject? then AttributeError
        else Returned(EffortOf(Get(metadata.fields, "reasoning")))
  }

  /** A truthy `response.reasoning` wins: `metadata` is then never looked at,
      so replacing it changes nothing and cannot make the lookup raise. */
  lemma DirectReasoningIgnoresMetadata(payload: Json, metadata: Json)
    requires payload.JObject?
    requires Get(payload.fields, "response").JObject?
    requires Truthy(Get(Get(payload.fields, "response").fields, "reasoning"))
    ensures
      var response := Get(payload.fields, "response").fields;
      var payload' := JObject(payload.fields["response" := JObject(response["metadata" := metadata])]);
      ReasoningEffort(payload') == ReasoningEffort(payload) && ReasoningEffort(payload).Returned?
  {
    var response := Get(payload.fields, "response").fields;
    var response' := response["metadata" := metadata];
    assert Get(response', "reasoning") == Get(response, "reasoning");
  }

  /** The reasoning value the lookup reads: `response.reasoning` when
      truthy, else `reasoning` inside `metadata` (a missing `metadata` read
      as `{}`). A present `metadata` that is not a dict makes the lookup
      raise instead (`ReasoningEffort` returns `AttributeError` there); this
      function then returns `None` only as a placeholder no contract uses. */
  function ChosenReasoning(response: map<string, Json>): (c: Json)
    ensures Truthy(Get(response, "reasoning")) ==> c == response["reasoning"]
    ensures !Truthy(Get(response, "reasoning")) && "metadata" !in response ==> c == JNull
    ensures !Truthy(Get(response, "reasoning")) && "metadata" in response && response["metadata"].JObject? ==>
      c == Get(response["metadata"].fields, "reasoning")
  {
    if Truthy(Get(response, "reasoning")) then response["reasoning"]
    else
      var metadata := GetOr(response, "metadata", JObject(map[]));
      if metadata.JObject? then Get(metadata.fields, "reasoning") else JNull
  }

  /** A truthy reported effort comes from the chosen reasoning dict: its
      `effort` when that is truthy, else its `effort_level`. */
  lemma ReportedEffortHasASource(payload: Json)
    requires payload.JObject?
    requires ReasoningEffort(payload).Returned? && Truthy(ReasoningEffort(payload).value)
    ensures Get(payload.fields, "response").JObject?
    ensures
      var chosen := ChosenReasoning(Get(payload.fields, "response").fields);
      var e := ReasoningEffort(payload).value;
      && chosen.JObject?
      && (Truthy(Get(chosen.fields, "effort")) ==> "effort" in chosen.fields && e == chosen.fields["effort"])
      && (!Truthy(Get(chosen.fields, "effort")) ==>
            "effort_level" in chosen.fields && e == chosen.fields["effort_level"])
  {
    var response := Get(payload.fields, "response").fields;
    var chosen := ChosenReasoning(response);
    assert ReasoningEffort(payload).value == EffortOf(chosen);
  }

  /** As written, a `metadata` that is JSON `null` makes the lookup raise
      even though a missing `metadata` is tolerated through the `{}`
      default: the payload of a `response.created` event whose response
      carries `"reasoning": null, "metadata": null`. */
  lemma NullMetadataRaises()
    ensures ReasoningEffort(JObject(map[
      "response" := JObject(map["reasoning" := JNull, "metadata" := JNull])
    ])) == AttributeError
  {
  }

  /** The lookup as evidently intended: a `metadata` that is not a dict is
      read like a missing one, so the lookup never raises. */
  function ReasoningEffortGuarded(payload: Json): (e: Json)
    requires payload.JObject?
    ensures ReasoningEffort(payload).Returned? ==> e == ReasoningEffort(payload).value
    ensures ReasoningEffort(payload).AttributeError? ==> e == JNull
  {
    var response := Get(payload.fields, "response");
    if !response.JObject? then JNull
    else
      var direct := Get(response.fields, "reasoning");
      if Truthy(direct) then EffortOf(direct)
      else
        var metadata := GetOr(response.fields, "metadata", JObject(map[]));
        if metadata.JObject? then EffortOf(Get(metadata.fields, "reasoning")) else JNull
  }

  /** The guarded lookup treats a non-dict `metadata` exactly as an absent
      one, where the lookup as written raises. */
  lemma GuardedTreatsBadMetadataAsAbsent(payload: Json)
    requires payload.JObject?
    requires Get(payload.fields, "response").JObject?
    ensures
      var response := Get(payload.fields, "response").fields;
      MetadataRaises(response) ==>
        ReasoningEffortGuarded(payload)
          == ReasoningEffortGuarded(JObject(payload.fields["response" := JObject(response - {"metadata"})]))
  {
    var response := Get(payload.fields, "response").fields;
    var stripped := response - {"metadata"};
    assert Get(stripped, "reasoning") == Get(response, "reasoning");
  }

  // -------------------------------------------------------- the Codex URL

  /** `_looks_like_codex(flow)` on the flow's URL: both `chatgpt.com` and
      `/backend-api/codex` occur in it, anywhere and in either order. */
  function LooksLikeCodex(url: string): (b: bool)
    ensures b <==>
      (exists i: nat :: OccursAt(url, CodexHost, i)) && (exists j: nat :: OccursAt(url, CodexPath, j))
  {
    Contains(url, CodexHost) && Contains(url, CodexPath)
  }

  /** The Codex responses endpoint is recognised. */
  lemma CodexResponsesUrlMatches()
    ensures LooksLikeCodex("https://chatgpt.com/backend-api/codex/responses")
  {
    var url := "https://chatgpt.com/backend-api/codex/responses";
    assert url == "https://" + CodexHost + CodexPath + "/responses";
    assert url[8..8 + |CodexHost|] == CodexHost;
    assert url[19..19 + |CodexPath|] == CodexPath;
    assert OccursAt(url, CodexHost, 8);
    assert OccursAt(url, CodexPath, 19);
  }

  /** Recognition is stable under adding text around the URL (a query
      string, another scheme): the test is by substring, not by position. */
  lemma LooksLikeCodexExtended(url: string, pre: string, post: string)
    requires LooksLikeCodex(url)
    ensures LooksLikeCodex(pre + url + post)
  {
    ContainsExtended(url, CodexHost, pre, post);
    ContainsExtended(url, CodexPath, pre, post);
  }
}
