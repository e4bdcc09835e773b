/**
 * Threshold alerts (src/metrics/alerts.py): the latest metrics of a
 * workspace are compared with configured thresholds, and a webhook is
 * posted with the metrics that breached them.
 *
 * The thresholds file, the metrics repository and the HTTP post are
 * parameters: the thresholds arrive as the mapping the YAML file holds,
 * the repository as a lookup of the latest value, and the post as the
 * request `send_webhook` would make.
 */
module Alerts {
  import opened Wrappers

  /** `AlertSummary`. */
  datatype AlertSummary = AlertSummary(
    workspaceId: string,
    pedagogicalScore: real,
    hallucinationRate: real,
    cost: real,
    pedagogicalBreached: bool,
    hallucinationBreached: bool,
    costBreached: bool)

  /** `has_breaches`. */
  predicate HasBreaches(s: AlertSummary)
  {
    s.pedagogicalBreached || s.hallucinationBreached || s.costBreached
  }

  const PedagogicalKey := "pedagogical_score"
  const HallucinationKey := "hallucination_rate"
  const CostKey := "cost"

  /** `breach_payload`: the dictionary starts empty and gains the value of
      each breached metric under its name. */
  function BreachPayload(s: AlertSummary): (data: map<string, real>)
    ensures PedagogicalKey in data <==> s.pedagogicalBreached
    ensures HallucinationKey in data <==> s.hallucinationBreached
    ensures CostKey in data <==> s.costBreached
    ensures PedagogicalKey in data ==> data[PedagogicalKey] == s.pedagogicalScore
    ensures HallucinationKey in data ==> data[HallucinationKey] == s.hallucinationRate
    ensures CostKey in data ==> data[CostKey] == s.cost
    ensures data.Keys <= {PedagogicalKey, HallucinationKey, CostKey}
  {
    var d0: map<string, real> := map[];
    var d1 := if s.pedagogicalBreached then d0[PedagogicalKey := s.pedagogicalScore] else d0;
    var d2 := if s.hallucinationBreached then d1[HallucinationKey := s.hallucinationRate] else d1;
    if s.costBreached then d2[CostKey := s.cost] else d2
  }

  /** A summary has breaches exactly when its payload is not empty. */
  lemma {:induction false} BreachesIffPayload(s: AlertSummary)
    ensures HasBreaches(s) <==> BreachPayload(s) != map[]
  {
    var data := BreachPayload(s);
    if HasBreaches(s) {
      if s.pedagogicalBreached {
        assert PedagogicalKey in data;
      } else if s.hallucinationBreached {
        assert HallucinationKey in data;
      } else {
        assert CostKey in data;
      }
    } else {
      assert forall k :: k in data ==> k == PedagogicalKey || k == HallucinationKey || k == CostKey;
    }
  }

  /** The configured thresholds, as read from the YAML file. */
  type Thresholds = map<string, real>

  const PedagogicalThreshold := "pedagogical_score"
  const HallucinationThreshold := "max_hallucination_rate"
  const CostThreshold := "max_cost_per_lecture"

  /** `latest_value(...) or 0.0`: a metric never recorded counts as 0. */
  function OrZero(v: Option<real>): (r: real)
    ensures v.None? ==> r == 0.0
    ensures v.Some? ==> r == v.value
  {
    if v.Some? then v.value else 0.0
  }

  /** `evaluate_thresholds`, with `latest(workspace, name)` the repository's
      latest value. A threshold missing from the file raises `KeyError`,
      reported here with its key, in the order the thresholds are read. */
  function EvaluateThresholds(thresholds: Thresholds, latest: (string, string) -> Option<real>, workspaceId: string)
    : (r: Result<AlertSummary>)
    ensures r.Err? <==> PedagogicalThreshold !in thresholds || HallucinationThreshold !in thresholds || CostThreshold !in thresholds
    ensures r.Ok? ==>
      var ped := OrZero(latest(workspaceId, PedagogicalKey));
      var hall := OrZero(latest(workspaceId, HallucinationKey));
      var cost := OrZero(latest(workspaceId, CostKey));
      && r.value.workspaceId == workspaceId
      && r.value.pedagogicalScore == ped && r.value.hallucinationRate == hall && r.value.cost == cost
      && (r.value.pedagogicalBreached <==> ped < thresholds[PedagogicalThreshold])
      && (r.value.hallucinationBreached <==> hall > thresholds[HallucinationThreshold])
      && (r.value.costBreached <==> cost > thresholds[CostThreshold])
  {
    var ped := OrZero(latest(workspaceId, PedagogicalKey));
    var hall := OrZero(latest(workspaceId, HallucinationKey));
    var cost := OrZero(latest(workspaceId, CostKey));
    if PedagogicalThreshold !in thresholds then Err(PedagogicalThreshold)
    else if HallucinationThreshold !in thresholds then Err(HallucinationThreshold)
    else if CostThreshold !in thresholds then Err(CostThreshold)
    else Ok(AlertSummary(workspaceId, ped, hall, cost,
                         ped < thresholds[PedagogicalThreshold],
                         hall > thresholds[HallucinationThreshold],
                         cost > thresholds[CostThreshold]))
  }

  /** The comparisons are strict: metrics exactly at their thresholds raise
      no alert. */
  lemma {:induction false} AtThresholdNoBreach(thresholds: Thresholds, latest: (string, string) -> Option<real>, workspaceId: string)
    requires PedagogicalThreshold in thresholds && HallucinationThreshold in thresholds && CostThreshold in thresholds
    requires latest(workspaceId, PedagogicalKey) == Some(thresholds[PedagogicalThreshold])
    requires latest(workspaceId, HallucinationKey) == Some(thresholds[HallucinationThreshold])
    requires latest(workspaceId, CostKey) == Some(thresholds[CostThreshold])
    ensures EvaluateThresholds(thresholds, latest, workspaceId).Ok?
    ensures !HasBreaches(EvaluateThresholds(thresholds, latest, workspaceId).value)
  {
  }

  /** A workspace with no metrics breaches the pedagogical threshold exactly
      when it is positive, and the other two exactly when they are
      negative. */
  lemma {:induction false} NoMetrics(thresholds: Thresholds, latest: (string, string) -> Option<real>, workspaceId: string)
    requires PedagogicalThreshold in thresholds && HallucinationThreshold in thresholds && CostThreshold in thresholds
    requires latest(workspaceId, PedagogicalKey).None? && latest(workspaceId, HallucinationKey).None?
    requires latest(workspaceId, CostKey).None?
    ensures var s := EvaluateThresholds(thresholds, latest, workspaceId).value;
      && (s.pedagogicalBreached <==> thresholds[PedagogicalThreshold] > 0.0)
      && (s.hallucinationBreached <==> thresholds[HallucinationThreshold] < 0.0)
      && (s.costBreached <==> thresholds[CostThreshold] < 0.0)
  {
  }

  /** The JSON body of the webhook. */
  datatype WebhookPayload = WebhookPayload(workspaceId: string, breaches: map<string, real>)

  /** The `httpx.post` call `send_webhook` makes. */
  datatype Post = Post(url: string, json: WebhookPayload, timeout: real)

  /** `send_webhook`, with the manager's `webhook_url or ALERT_WEBHOOK_URL`:
      no request without a URL or without breaches, otherwise one post of
      the workspace and its breached metrics with a 10-second timeout. */
  function SendWebhook(webhookUrl: Option<string>, alert: AlertSummary): (r: Option<Post>)
    ensures r.None? <==> webhookUrl.None? || webhookUrl.value == "" || !HasBreaches(alert)
    ensures r.Some? ==>
      && r.value.url == webhookUrl.value && r.value.timeout == 10.0
      && r.value.json == WebhookPayload(alert.workspaceId, BreachPayload(alert))
      && r.value.json.breaches != map[]
  {
    BreachesIffPayload(alert);
    if webhookUrl.None? || webhookUrl.value == "" || !HasBreaches(alert) then None
    else Some(Post(webhookUrl.value, WebhookPayload(alert.workspaceId, BreachPayload(alert)), 10.0))
  }

  /** A pedagogical and a cost breach are posted; the hallucination rate,
      within its threshold, is not. */
  lemma {:induction false} PostsBreaches()
    ensures var alert := AlertSummary("ws1", 0.8, 0.03, 0.7, true, false, true);
      var r := SendWebhook(Some("http://example.com"), alert);
      && r.Some? && r.value.url == "http://example.com" && r.value.json.workspaceId == "ws1"
      && PedagogicalKey in r.value.json.breaches && CostKey in r.value.json.breaches
      && HallucinationKey !in r.value.json.breaches
  {
  }
}
