/**
 * The sequential conversation graph (app/graph.py): a list of text-to-text
 * agents run one after the other, each on the text the previous one
 * produced, with the history of their results.
 *
 * The agents (`plan`, `research`, `draft`, `review` and the overlay agent)
 * call a language model; here they are function parameters.
 */
module ConversationGraph {
  import opened Wrappers

  datatype Graph = Graph(nodes: seq<string -> string>)

  /** What `run` returns: `{"messages": history, "output": state}`. */
  datatype RunResult = RunResult(messages: seq<string>, output: string)

  /** The text node `k` is given: the input for the first node, the result
      of node `k - 1` otherwise. */
  function InputOf(input: string, messages: seq<string>, k: nat): string
    requires k <= |messages|
  {
    if k == 0 then input else messages[k - 1]
  }

  /** `history` after the given nodes, built node by node. */
  function History(nodes: seq<string -> string>, input: string): (r: seq<string>)
    ensures |r| == |nodes|
    ensures forall k :: 0 <= k < |r| ==> r[k] == nodes[k](InputOf(input, r, k))
    decreases |nodes|
  {
    if nodes == [] then []
    else
      var h := History(nodes[..|nodes| - 1], input);
      h + [nodes[|nodes| - 1](InputOf(input, h, |h|))]
  }

  lemma {:induction false} HistoryStep(nodes: seq<string -> string>, input: string, i: nat)
    requires i < |nodes|
    ensures History(nodes[..i + 1], input) ==
            History(nodes[..i], input) + [nodes[i](InputOf(input, History(nodes[..i], input), i))]
  {
    assert nodes[..i + 1][..i] == nodes[..i];
  }

  /** `ConversationGraph.run`. */
  method Run(g: Graph, input: string) returns (r: RunResult)
    ensures r.messages == History(g.nodes, input)
    ensures r.output == if g.nodes == [] then input else r.messages[|r.messages| - 1]
  {
    var state := input;
    var history: seq<string> := [];
    var i := 0;
    while i < |g.nodes|
      invariant 0 <= i <= |g.nodes|
      invariant history == History(g.nodes[..i], input)
      invariant state == InputOf(input, history, i)
    {
      HistoryStep(g.nodes, input, i);
      state := g.nodes[i](state);
      history := history + [state];
      i := i + 1;
    }
    assert g.nodes[..i] == g.nodes;
    r := RunResult(history, state);
  }

  /** The history is determined by the nodes and the input: it is the one
      `History` builds, whatever order the results were recorded in. */
  lemma {:induction false} HistoryUnique(nodes: seq<string -> string>, input: string, h: seq<string>)
    requires |h| == |nodes|
    requires forall k :: 0 <= k < |h| ==> h[k] == nodes[k](InputOf(input, h, k))
    ensures h == History(nodes, input)
    decreases |nodes|
  {
    if nodes != [] {
      var n := |nodes| - 1;
      var front := h[..n];
      forall k | 0 <= k < |front| ensures front[k] == nodes[..n][k](InputOf(input, front, k)) {
        assert InputOf(input, front, k) == InputOf(input, h, k);
      }
      HistoryUnique(nodes[..n], input, front);
      assert h == front + [h[n]];
    }
  }

  /** `review_node` of `build_graph`: the review, passed through the overlay
      agent when one is given. */
  function ReviewNode(review: string -> string, overlay: Option<(string, string) -> string>, text: string): string
  {
    var result := review(text);
    if overlay.Some? then overlay.value(text, result) else result
  }

  /** `build_graph`: plan, research, draft and the review node. */
  function BuildGraph(plan: string -> string, research: string -> string, draft: string -> string,
                      review: string -> string, overlay: Option<(string, string) -> string>): (g: Graph)
    ensures |g.nodes| == 4
    ensures g.nodes[..3] == [plan, research, draft]
    ensures forall t :: g.nodes[3](t) == ReviewNode(review, overlay, t)
  {
    Graph([plan, research, draft, (t: string) => ReviewNode(review, overlay, t)])
  }

  /** The source's tests: with the agents stubbed to constants, the output
      of the built graph is the review's result, or the overlay's when there
      is one. */
  lemma {:induction false} StubbedOutput(input: string, plan: string -> string, research: string -> string, draft: string -> string,
                      review: string -> string, overlay: Option<(string, string) -> string>)
    requires forall t :: review(t) == "review"
    requires overlay.Some? ==> forall t, u :: overlay.value(t, u) == "ov"
    ensures History(BuildGraph(plan, research, draft, review, overlay).nodes, input)[3]
            == if overlay.Some? then "ov" else "review"
  {
    var g := BuildGraph(plan, research, draft, review, overlay);
    var h := History(g.nodes, input);
    assert h[3] == g.nodes[3](InputOf(input, h, 3));
  }
}
