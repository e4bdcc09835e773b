/**
 * The toy orchestration graph (src/agentic_demo/orchestration/graph.py):
 * six nodes that each log their own name and update a shared state, the
 * planner/researcher loop, the weaver/critic loop, and the two routers that
 * close them.
 *
 * The graph runner is modelled by `Run`, which follows the edges from a node
 * until END and gives up with an error after `limit` node runs, as the
 * runner's recursion limit does.
 */
module OrchestrationGraph {
  import opened Wrappers
  import opened Text
  import opened Dedup
  import opened Seqs

  /** The state the nodes read and write, as a value (`asdict(state)`). */
  datatype Snapshot = Snapshot(
    prompt: string,
    sources: seq<string>,
    log: seq<string>,
    confidence: real,
    criticAttempts: int,
    criticScore: real)

  /** The orchestration state the nodes update in place. */
  class GraphState {
    var prompt: string
    var sources: seq<string>
    var log: seq<string>
    var confidence: real
    var criticAttempts: int
    var criticScore: real

    function Values(): Snapshot
      reads this
    {
      Snapshot(prompt, sources, log, confidence, criticAttempts, criticScore)
    }

    constructor (v: Snapshot)
      ensures Values() == v
    {
      prompt := v.prompt;
      sources := v.sources;
      log := v.log;
      confidence := v.confidence;
      criticAttempts := v.criticAttempts;
      criticScore := v.criticScore;
    }
  }

  datatype Node = PlannerNode | ResearcherNode | WeaverNode | CriticNode | ApproverNode | ExporterNode

  /** The name a node is registered under, which is also what it logs. */
  function Name(n: Node): string
  {
    match n
    case PlannerNode => "planner"
    case ResearcherNode => "researcher_web"
    case WeaverNode => "content_weaver"
    case CriticNode => "critic"
    case ApproverNode => "approver"
    case ExporterNode => "exporter"
  }

  lemma {:induction false} NamesDistinct(m: Node, n: Node)
    ensures Name(m) == Name(n) ==> m == n
  {
    if m != n {
      assert Name(m)[0] != Name(n)[0] || Name(m)[1] != Name(n)[1] || |Name(m)| != |Name(n)|;
    }
  }

  function Min(x: real, y: real): real
  {
    if x <= y then x else y
  }

  /** `planner`: half a point more confidence, capped at 1.0. */
  function PlannerStep(v: Snapshot): (r: Snapshot)
    ensures r.log == v.log + ["planner"]
    ensures r.confidence <= 1.0
    ensures v.confidence <= 1.0 ==> v.confidence < r.confidence || r.confidence == 1.0
    ensures v.confidence <= 0.5 ==> r.confidence == v.confidence + 0.5
    ensures r.(log := v.log, confidence := v.confidence) == v
  {
    v.(log := v.log + ["planner"], confidence := Min(v.confidence + 0.5, 1.0))
  }

  /** `researcher_web`: the sources without later case-insensitive repeats. */
  function ResearcherStep(v: Snapshot): (r: Snapshot)
    ensures r.log == v.log + ["researcher_web"]
    ensures IsSubsequence(r.sources, v.sources)
    ensures DistinctKeys(r.sources, Lower) && KeySet(r.sources, Lower) == KeySet(v.sources, Lower)
    ensures r.(log := v.log, sources := v.sources) == v
  {
    DedupByProperties(v.sources, Lower);
    v.(log := v.log + ["researcher_web"], sources := DedupBy(v.sources, Lower))
  }

  /** `critic`: one more attempt; the score is 1.0 from the third on. */
  function CriticStep(v: Snapshot): (r: Snapshot)
    ensures r.log == v.log + ["critic"]
    ensures r.criticAttempts == v.criticAttempts + 1
    ensures r.criticScore == 1.0 <==> v.criticAttempts + 1 >= 3
    ensures r.criticScore == 0.0 <==> v.criticAttempts + 1 < 3
    ensures r.(log := v.log, criticAttempts := v.criticAttempts, criticScore := v.criticScore) == v
  {
    var attempts := v.criticAttempts + 1;
    v.(log := v.log + ["critic"], criticAttempts := attempts, criticScore := if attempts >= 3 then 1.0 else 0.0)
  }

  /** What one node does to the state. */
  function Apply(n: Node, v: Snapshot): (r: Snapshot)
    ensures r.log == v.log + [Name(n)]
    ensures r.prompt == v.prompt
    ensures n != ResearcherNode ==> r.sources == v.sources
    ensures n != PlannerNode ==> r.confidence == v.confidence
    ensures n != CriticNode ==> r.criticAttempts == v.criticAttempts && r.criticScore == v.criticScore
  {
    match n
    case PlannerNode => PlannerStep(v)
    case ResearcherNode => ResearcherStep(v)
    case CriticNode => CriticStep(v)
    case _ => v.(log := v.log + [Name(n)])
  }

  /** `planner_router`. */
  function PlannerRoute(v: Snapshot): (route: string)
    ensures route == "to_weaver" <==> v.confidence >= 0.9
    ensures route == "to_research" <==> v.confidence < 0.9
  {
    if v.confidence >= 0.9 then "to_weaver" else "to_research"
  }

  /** `critic_router`. */
  function CriticRoute(v: Snapshot): (route: string)
    ensures route == "approve" <==> v.criticScore >= 0.5 || v.criticAttempts >= 3
    ensures route == "revise" <==> !(v.criticScore >= 0.5 || v.criticAttempts >= 3)
  {
    if v.criticScore >= 0.5 || v.criticAttempts >= 3 then "approve" else "revise"
  }

  /** The edges of `create_state_graph` out of a node that has just run,
      given the state it left; `None` is END. */
  function Next(n: Node, v: Snapshot): Option<Node>
  {
    match n
    case PlannerNode => if PlannerRoute(v) == "to_weaver" then Some(WeaverNode) else Some(ResearcherNode)
    case ResearcherNode => Some(PlannerNode)
    case WeaverNode => Some(CriticNode)
    case CriticNode => if CriticRoute(v) == "approve" then Some(ApproverNode) else Some(WeaverNode)
    case ApproverNode => Some(ExporterNode)
    case ExporterNode => None
  }

  /** The graph started at node `n`: the state at END, or an error when more
      than `limit` nodes would run. */
  function Run(n: Node, v: Snapshot, limit: nat): Result<Snapshot>
    decreases limit
  {
    if limit == 0 then Err("Recursion limit reached")
    else
      var w := Apply(n, v);
      match Next(n, w)
      case None => Ok(w)
      case Some(m) => Run(m, w, limit - 1)
  }

  /** The log entries of `k` rounds of the weaver/critic loop. */
  function Rounds(k: nat): seq<string>
  {
    if k == 0 then [] else Rounds(k - 1) + ["content_weaver", "critic"]
  }

  /** How many critic passes the loop makes when it is entered with
      `attempts` critic attempts already made. */
  function Passes(attempts: int): nat
  {
    if attempts >= 2 then 1 else 3 - attempts
  }

  /** From the weaver, the loop runs until the critic has been consulted at
      least three times in all (once at least), then approves and exports. */
  lemma {:induction false} WeaverLoop(v: Snapshot, limit: nat)
    requires limit >= 2 * Passes(v.criticAttempts) + 2
    ensures Run(WeaverNode, v, limit).Ok?
    ensures var w := Run(WeaverNode, v, limit).value;
            w.log == v.log + Rounds(Passes(v.criticAttempts)) + ["approver", "exporter"] &&
            w.criticAttempts == v.criticAttempts + Passes(v.criticAttempts) &&
            w.sources == v.sources && w.confidence == v.confidence && w.prompt == v.prompt
    decreases Passes(v.criticAttempts)
  {
    var woven := Apply(WeaverNode, v);
    var judged := Apply(CriticNode, woven);
    assert Run(WeaverNode, v, limit) == Run(CriticNode, woven, limit - 1);
    if v.criticAttempts >= 2 {
      assert CriticRoute(judged) == "approve";
      var approved := Apply(ApproverNode, judged);
      assert Run(CriticNode, woven, limit - 1) == Run(ApproverNode, judged, limit - 2);
      assert Run(ApproverNode, judged, limit - 2) == Run(ExporterNode, approved, limit - 3);
      assert Rounds(1) == [] + ["content_weaver", "critic"];
    } else {
      assert CriticRoute(judged) == "revise";
      assert Run(CriticNode, woven, limit - 1) == Run(WeaverNode, judged, limit - 2);
      assert Passes(judged.criticAttempts) == Passes(v.criticAttempts) - 1;
      WeaverLoop(judged, limit - 2);
      RoundsPrefix(Passes(v.criticAttempts));
    }
  }

  lemma {:induction false} RoundsPrefix(k: nat)
    requires k >= 1
    ensures ["content_weaver", "critic"] + Rounds(k - 1) == Rounds(k)
    decreases k
  {
    if k > 1 {
      RoundsPrefix(k - 1);
    }
  }

  /** Entered with no attempts made, as from a fresh state, the loop makes
      exactly three critic passes; it never makes more. */
  lemma {:induction false} CriticPassesBounded(attempts: int)
    ensures attempts >= 0 ==> 1 <= Passes(attempts) <= 3
    ensures attempts == 0 ==> Passes(attempts) == 3
  {
  }

  /** From confidence 0 the planner reaches the weaver on its second call,
      with the researcher in between. */
  lemma {:induction false} TwoPlannerCalls(v: Snapshot)
    requires v.confidence == 0.0
    ensures PlannerRoute(PlannerStep(v)) == "to_research"
    ensures PlannerRoute(PlannerStep(ResearcherStep(PlannerStep(v)))) == "to_weaver"
  {
  }

  /** The whole run from a fresh state: the node order of the source's
      streaming test, the sources deduplicated once, three critic passes. */
  lemma {:induction false} FreshRun(v: Snapshot, limit: nat)
    requires v.log == [] && v.confidence == 0.0 && v.criticAttempts == 0 && limit >= 11
    ensures Run(PlannerNode, v, limit).Ok?
    ensures var w := Run(PlannerNode, v, limit).value;
            w.log == ["planner", "researcher_web", "planner", "content_weaver", "critic", "content_weaver",
                      "critic", "content_weaver", "critic", "approver", "exporter"] &&
            w.sources == DedupBy(v.sources, Lower) && w.criticAttempts == 3 && w.confidence == 1.0
  {
    var p2 := PlannerPhase(v, limit);
    WeaverLoop(p2, limit - 3);
    ThreeRounds();
  }

  /** The planner/researcher loop from confidence 0: planner, researcher,
      planner, then on to the weaver with full confidence. */
  lemma {:induction false} PlannerPhase(v: Snapshot, limit: nat) returns (p2: Snapshot)
    requires v.confidence == 0.0 && limit >= 3
    ensures Run(PlannerNode, v, limit) == Run(WeaverNode, p2, limit - 3)
    ensures p2.log == v.log + ["planner", "researcher_web", "planner"]
    ensures p2.sources == DedupBy(v.sources, Lower) && p2.confidence == 1.0
    ensures p2.criticAttempts == v.criticAttempts
  {
    var p1 := Apply(PlannerNode, v);
    var r := Apply(ResearcherNode, p1);
    p2 := Apply(PlannerNode, r);
    TwoPlannerCalls(v);
    assert Run(PlannerNode, v, limit) == Run(ResearcherNode, p1, limit - 1);
    assert Run(ResearcherNode, p1, limit - 1) == Run(PlannerNode, r, limit - 2);
  }

  lemma {:induction false} ThreeRounds()
    ensures Rounds(3) == ["content_weaver", "critic", "content_weaver", "critic", "content_weaver", "critic"]
  {
    assert Rounds(1) == [] + ["content_weaver", "critic"];
  }

  /** The source's deduplication test: "A", "a", "B" become "A", "B". */
  lemma {:induction false} ResearcherExample(v: Snapshot)
    requires v.sources == ["A", "a", "B"]
    ensures ResearcherStep(v).sources == ["A", "B"]
  {
    assert Lower("A") == "a" == Lower("a") && Lower("B") == "b";
    FirstSpelling("A", "a", "B");
  }

  /** Of two spellings of one source the first stays; a distinct source stays. */
  lemma {:induction false} FirstSpelling(x: string, y: string, z: string)
    requires Lower(x) == Lower(y) != Lower(z)
    ensures DedupBy([x, y, z], Lower) == [x, z]
  {
    var xs := [x, y, z];
    assert xs[..2] == [x, y] && xs[..2][..1] == [x] && xs[..1][..0] == [];
    assert DedupBy([x], Lower) == [x];
    assert DedupBy([x, y], Lower) == [x];
  }

  /** `planner(state)`. */
  method Planner(state: GraphState) returns (d: Snapshot)
    modifies state
    ensures state.Values() == PlannerStep(old(state.Values())) && d == state.Values()
  {
    state.log := state.log + ["planner"];
    state.confidence := Min(state.confidence + 0.5, 1.0);
    d := state.Values();
  }

  /** `researcher_web(state)`. */
  method ResearcherWeb(state: GraphState) returns (d: Snapshot)
    modifies state
    ensures state.Values() == ResearcherStep(old(state.Values())) && d == state.Values()
  {
    state.log := state.log + ["researcher_web"];
    state.sources := DedupSources(state.sources);
    d := state.Values();
  }

  /** The loop of `researcher_web` with its `seen` set. */
  method DedupSources(sources: seq<string>) returns (deduped: seq<string>)
    ensures deduped == DedupBy(sources, Lower)
  {
    var seen: set<string> := {};
    deduped := [];
    var i := 0;
    while i < |sources|
      invariant 0 <= i <= |sources|
      invariant seen == KeySet(sources[..i], Lower)
      invariant deduped == DedupBy(sources[..i], Lower)
    {
      seen, deduped := DedupOne(sources, i, seen, deduped);
      i := i + 1;
    }
    assert sources[..i] == sources;
  }

  /** The body of that loop: source `i` is kept when its lowercase form has
      not been seen. */
  method DedupOne(sources: seq<string>, i: nat, seen: set<string>, deduped: seq<string>)
    returns (seen': set<string>, deduped': seq<string>)
    requires i < |sources|
    requires seen == KeySet(sources[..i], Lower) && deduped == DedupBy(sources[..i], Lower)
    ensures seen' == KeySet(sources[..i + 1], Lower) && deduped' == DedupBy(sources[..i + 1], Lower)
  {
    DedupByStep(sources, Lower, i);
    var lowered := Lower(sources[i]);
    seen', deduped' := seen, deduped;
    if lowered !in seen {
      seen' := seen + {lowered};
      deduped' := deduped + [sources[i]];
    }
  }

  /** `content_weaver`, `approver` and `exporter`: they only log. */
  method LogOnly(state: GraphState, n: Node) returns (d: Snapshot)
    requires n == WeaverNode || n == ApproverNode || n == ExporterNode
    modifies state
    ensures state.Values() == Apply(n, old(state.Values())) && d == state.Values()
  {
    state.log := state.log + [Name(n)];
    d := state.Values();
  }

  /** `critic(state)`. */
  method Critic(state: GraphState) returns (d: Snapshot)
    modifies state
    ensures state.Values() == CriticStep(old(state.Values())) && d == state.Values()
  {
    state.log := state.log + ["critic"];
    state.criticAttempts := state.criticAttempts + 1;
    state.criticScore := if state.criticAttempts >= 3 then 1.0 else 0.0;
    d := state.Values();
  }
}
