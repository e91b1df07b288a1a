/** The Dash client's view logic: turning a trending graph (as the dictionary
    the analysis service returns) into the flat element list the Cytoscape
    widget draws, and the two callbacks that fetch a graph for a language and
    refresh the view when the stored graph changes. */
module Client {
  import opened Wrappers
  import PyStrings

  /** A graph node as the client sees it: only its `id` ("owner/name") is read. */
  datatype Node = Node(id: string)

  /** A graph edge as the client sees it. `weight` and `similarity` are
      `None` when the key is missing; `similarity` is also `None` when the key
      holds `None` (the service leaves it unset when no score was computed). */
  datatype EdgeIn = EdgeIn(source: string, target: string, weight: Option<int>, similarity: Option<real>)

  /** The graph dictionary: either key may be missing. */
  datatype Graph = Graph(nodes: Option<seq<Node>>, edges: Option<seq<EdgeIn>>)

  /** One Cytoscape element: a node entry (`caption` is its "label" data
      field), or an edge entry with its optional `similarity` data field and
      optional `classes` string. */
  datatype Elem =
    | NodeElem(id: string, caption: string)
    | EdgeElem(source: string, target: string, weight: int, semantic: bool,
               similarity: Option<real>, classes: Option<string>)

  /** Similarities strictly above this threshold mark an edge as semantic. */
  const SemanticThreshold: real := 0.5

  /** The Cytoscape class given to semantic edges. */
  const SemanticClass: string := "semantic-edge"

  /** The weight an edge element gets when the edge has no `weight` key. */
  const DefaultWeight: int := 1

  const NoEdgesWarning: string :=
    "Warning: No edges were found. Semantic similarity or topic analysis may have failed."

  const MissingLanguageMessage: string := "Please enter a language."

  /** `graph.get("nodes", [])` */
  function NodesOf(g: Graph): seq<Node> { g.nodes.GetOr([]) }

  /** `graph.get("edges", [])` */
  function EdgesOf(g: Graph): seq<EdgeIn> { g.edges.GetOr([]) }

  // ---------------------------------------------------------------------------
  // graph_to_cytoscape_elements
  // ---------------------------------------------------------------------------

  /** A node's display label: the text after the last '/' of its id when the
      id holds a '/', else the whole id. It is the longest suffix of the id
      without a '/': a suffix, '/'-free, and either the whole id or preceded
      by a '/'. */
  function Label(id: string): (name: string)
    ensures '/' !in name
    ensures |name| <= |id| && name == id[|id| - |name|..]
    ensures |name| < |id| ==> id[|id| - |name| - 1] == '/'
  {
    if '/' in id then
      var parts := PyStrings.Split(id, '/');
      PyStrings.LastPartIsSuffix(id, '/');
      parts[|parts| - 1]
    else id
  }

  /** No suffix of an id that avoids '/' is longer than its label. */
  lemma LabelIsLongestSlashFreeSuffix(id: string, n: nat)
    requires n <= |id| && '/' !in id[|id| - n..]
    ensures n <= |Label(id)|
  {
  }

  /** The element for one node: the id unchanged, with its label, the text
      after the id's last '/' (the whole id when there is none). */
  function NodeElement(n: Node): (e: Elem)
    ensures e.NodeElem? && e.id == n.id && '/' !in e.caption
    ensures |e.caption| <= |n.id| && e.caption == n.id[|n.id| - |e.caption|..]
    ensures |e.caption| < |n.id| ==> n.id[|n.id| - |e.caption| - 1] == '/'
    ensures e.caption == Label(n.id)
  {
    NodeElem(n.id, Label(n.id))
  }

  /** The node comprehension: one node element per node, in order. */
  function NodeElements(nodes: seq<Node>): (r: seq<Elem>)
    ensures |r| == |nodes|
    ensures forall i :: 0 <= i < |nodes| ==> r[i] == NodeElement(nodes[i])
  {
    if nodes == [] then [] else [NodeElement(nodes[0])] + NodeElements(nodes[1..])
  }

  /** Whether an edge counts as semantic: it has a similarity above the threshold. */
  predicate IsSemantic(e: EdgeIn)
  {
    e.similarity.Some? && e.similarity.value > SemanticThreshold
  }

  /** The element for one edge (the body of the loop). Endpoints are copied,
      the weight defaults to 1, and exactly the semantic edges carry the
      similarity and the "semantic-edge" class. */
  function EdgeElement(e: EdgeIn): (r: Elem)
    ensures r.EdgeElem? && r.source == e.source && r.target == e.target
    ensures r.weight == (if e.weight.Some? then e.weight.value else DefaultWeight)
    ensures r.semantic <==> (e.similarity.Some? && e.similarity.value > 0.5)
    ensures r.semantic ==> r.similarity == e.similarity && r.classes == Some("semantic-edge")
    ensures !r.semantic ==> r.similarity.None? && r.classes.None?
  {
    if IsSemantic(e) then
      EdgeElem(e.source, e.target, e.weight.GetOr(DefaultWeight), true, e.similarity, Some(SemanticClass))
    else
      EdgeElem(e.source, e.target, e.weight.GetOr(DefaultWeight), false, None, None)
  }

  /** The full element list of a graph: every node element, in input order,
      followed by every edge element, in input order. */
  function Elements(g: Graph): (r: seq<Elem>)
    ensures |r| == |NodesOf(g)| + |EdgesOf(g)|
    ensures forall i :: 0 <= i < |NodesOf(g)| ==> r[i] == NodeElement(NodesOf(g)[i])
    ensures forall j :: 0 <= j < |EdgesOf(g)| ==> r[|NodesOf(g)| + j] == EdgeElement(EdgesOf(g)[j])
  {
    var edges := seq(|EdgesOf(g)|, j requires 0 <= j < |EdgesOf(g)| => EdgeElement(EdgesOf(g)[j]));
    NodeElements(NodesOf(g)) + edges
  }

  /** graph_to_cytoscape_elements: the node elements from the comprehension,
      then the edge elements appended one by one in a loop. */
  method GraphToCytoscapeElements(g: Graph) returns (elements: seq<Elem>)
    ensures elements == Elements(g)
  {
    var nodes := NodeElements(NodesOf(g));
    var input := EdgesOf(g);
    var edges: seq<Elem> := [];
    var i := 0;
    while i < |input|
      invariant 0 <= i <= |input|
      invariant |edges| == i
      invariant forall j :: 0 <= j < i ==> edges[j] == EdgeElement(input[j])
    {
      var edge := input[i];
      if edge.similarity.Some? && edge.similarity.value > SemanticThreshold {
        edges := edges + [EdgeElem(edge.source, edge.target, edge.weight.GetOr(DefaultWeight),
                                   true, edge.similarity, Some(SemanticClass))];
      } else {
        edges := edges + [EdgeElem(edge.source, edge.target, edge.weight.GetOr(DefaultWeight),
                                   false, None, None)];
      }
      i := i + 1;
    }
    elements := nodes + edges;
  }

  /** The element list splits at the node count: node elements before it,
      edge elements after it. */
  lemma ElementsArePartitioned(g: Graph, k: nat)
    requires k < |Elements(g)|
    ensures Elements(g)[k].NodeElem? <==> k < |NodesOf(g)|
  {
  }

  /** A graph with neither key, or with both lists empty, has no elements. */
  lemma ElementsOfEmptyGraph(g: Graph)
    requires NodesOf(g) == [] && EdgesOf(g) == []
    ensures Elements(g) == []
  {
  }

  // ---------------------------------------------------------------------------
  // update_graph_elements
  // ---------------------------------------------------------------------------

  /** Python truthiness of an optional list: present and non-empty. */
  predicate Truthy<T>(xs: Option<seq<T>>)
  {
    xs.Some? && |xs.value| > 0
  }

  /** `not graph` on the stored value: nothing stored, or a dictionary with no keys. */
  predicate IsEmptyStore(data: Option<Graph>)
  {
    data.None? || (data.value.nodes.None? && data.value.edges.None?)
  }

  /** The warning shown above the JSON: non-empty exactly when the graph has
      nodes but no edges. */
  function Warning(g: Graph): (msg: string)
    ensures msg != "" <==> (|NodesOf(g)| > 0 && |EdgesOf(g)| == 0)
    ensures msg != "" ==> msg == NoEdgesWarning
  {
    if Truthy(g.nodes) && !Truthy(g.edges) then NoEdgesWarning else ""
  }

  /** The text of the JSON pane: the dump itself when there is no warning,
      otherwise the warning and a blank line before it. The dump always
      ends the text. */
  function PaneText(warning: string, dump: string): (text: string)
    ensures |text| >= |dump| && text[|text| - |dump|..] == dump
    ensures text == dump <==> warning == ""
    ensures warning != "" ==> |text| == |warning| + 2 + |dump| && text[..|warning| + 2] == warning + "\n\n"
  {
    if warning == "" then dump else warning + "\n\n" + dump
  }

  /** update_graph_elements: clears the view for an empty store; otherwise
      draws the graph's elements and shows its JSON dump (`dumps` stands for
      `json.dumps(graph, indent=2, ensure_ascii=False)`), warning first when
      the graph has nodes but no edges. */
  method UpdateGraphElements(data: Option<Graph>, dumps: Graph -> string)
    returns (elements: seq<Elem>, text: string)
    ensures IsEmptyStore(data) ==> elements == [] && text == ""
    ensures !IsEmptyStore(data) ==> elements == Elements(data.value)
    ensures !IsEmptyStore(data) && !(|NodesOf(data.value)| > 0 && |EdgesOf(data.value)| == 0)
      ==> text == dumps(data.value)
    ensures !IsEmptyStore(data) && |NodesOf(data.value)| > 0 && |EdgesOf(data.value)| == 0
      ==> text == NoEdgesWarning + "\n\n" + dumps(data.value)
  {
    if IsEmptyStore(data) {
      return [], "";
    }
    var g := data.value;
    var pretty := dumps(g);
    elements := GraphToCytoscapeElements(g);
    var errorMsg := "";
    if Truthy(g.nodes) && !Truthy(g.edges) {
      errorMsg := NoEdgesWarning;
    }
    assert errorMsg == Warning(g);
    text := PaneText(errorMsg, pretty);
  }

  // ---------------------------------------------------------------------------
  // fetch_graph
  // ---------------------------------------------------------------------------

  /** What the callback writes to the graph store: nothing (`no_update`), or
      a value, which is `None` after a failed fetch. */
  datatype StoreUpdate = NoUpdate | Store(data: Option<Graph>)

  /** fetch_graph's two outputs: the store update and the error-message text. */
  datatype FetchOutcome = FetchOutcome(store: StoreUpdate, message: string)

  /** fetch_graph: with no language (missing or empty) the store is left
      alone and the user is asked for one. Otherwise the service is asked for
      the stripped language; its graph is stored with no message, and a
      failure stores `None` and shows "Error: " and the failure's text.
      `service` stands for `TrendingAnalysisService.get_trending_graph`
      followed by `asdict`, a raised exception being a `Failure` holding
      `str(e)`. */
  function FetchGraph(language: Option<string>, service: string -> Result<Graph, string>): (r: FetchOutcome)
    ensures r.store.NoUpdate? <==> (language.None? || language.value == "")
    ensures r.store.NoUpdate? ==> r.message == "Please enter a language."
    ensures r.message == "" <==> (r.store.Store? && r.store.data.Some?)
    ensures r.store.Store? ==>
      match service(PyStrings.Strip(language.value))
      case Success(g) => r.store.data == Some(g)
      case Failure(err) => r.store.data.None? && r.message == "Error: " + err
  {
    if language.None? || language.value == "" then
      FetchOutcome(NoUpdate, MissingLanguageMessage)
    else
      match service(PyStrings.Strip(language.value))
      case Success(g) => FetchOutcome(Store(Some(g)), "")
      case Failure(err) => FetchOutcome(Store(None), "Error: " + err)
  }

  /** Without a language the service is never consulted: the outcome is the
      same whatever the service would have answered. */
  lemma MissingLanguageSkipsService(language: Option<string>,
                                    service1: string -> Result<Graph, string>,
                                    service2: string -> Result<Graph, string>)
    requires language.None? || language.value == ""
    ensures FetchGraph(language, service1) == FetchGraph(language, service2)
    ensures FetchGraph(language, service1) == FetchOutcome(NoUpdate, "Please enter a language.")
  {
  }
}
