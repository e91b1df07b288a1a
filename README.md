# Trending graph viewer: client view logic in Dafny

This project models the view side of the GitHub-trending graph viewer, its
Dash client `client.py`. The analysis service returns a graph dictionary with
a list of repository nodes and a list of weighted, optionally
similarity-scored edges. The client turns that graph into the flat element
list the Cytoscape widget draws. It also runs two callbacks: one fetches a
graph for the language the user typed, and one redraws the view and the
JSON pane whenever the stored graph changes.

Modules:

- `Wrappers` (`wrappers.dfy`): `Option` for a dictionary key that may be
  missing, and `Result` for a call that may raise.
- `PyStrings` (`pystrings.dfy`): the Python string operations the client
  uses. `str.split` on a one-character separator comes with `join` as its
  partner, and the file proves the two are inverse in both directions.
  `str.strip()` is modelled with Python's full `isspace` character set.
- `Client` (`client.dfy`):
  - `graph_to_cytoscape_elements` is a function for the node comprehension
    plus a method whose `while` loop appends the edge elements, as the
    source does. The method is proved equal to the specification function
    `Elements`.
  - `update_graph_elements` is a method.
  - `fetch_graph` is a function. The analysis service is a function
    parameter, so the model can show that without a language the service's
    answer does not matter.

Behaviour the model shows as it is written in the source:

- The language guard runs before stripping. So a whitespace-only language
  passes the guard, and the service is asked for the empty string.
- On a failed fetch, the callback stores `None`. The next redraw then clears
  the view.
- The "no edges" warning depends only on the two lists. A graph whose
  `nodes` and `edges` keys both hold empty lists is drawn with no warning,
  and its text is the bare dump.

## Model

| member | source | states |
|---|---|---|
| `PyStrings.Split` | client.py:90 | `id.split("/")` has at least one part, no part contains the separator, and there is exactly one part (the whole string) iff the string has no separator |
| `PyStrings.JoinSplit` | client.py:90 | joining the parts of a split with the separator gives back the original string |
| `PyStrings.SplitJoin` | client.py:90 | splitting the join of separator-free parts gives back exactly those parts |
| `PyStrings.LastPartIsSuffix` | client.py:90 | the last part of a split (`[-1]`) is a suffix of the string, and a separator stands right before it unless it is the whole string |
| `PyStrings.SkipSpaceForward` | client.py:131 | the scan from the left skips only whitespace and stops at the end or at the first character that is not whitespace |
| `PyStrings.SkipSpaceBackward` | client.py:131 | the scan from the right skips only whitespace and stops at its lower bound or just after a character that is not whitespace |
| `PyStrings.Strip` | client.py:131 | `language.strip()` is a slice of the input with only whitespace cut off on either side, and it neither starts nor ends with whitespace; whitespace is `PyStrings.IsSpace`, Python's `str.isspace()` set |
| `PyStrings.StripIdempotent` | client.py:131 | stripping an already-stripped language changes nothing |
| `Client.Label` | client.py:90 | the label is the text after the last `/` when the id has one, else the whole id: a `/`-free suffix of the id that is either the whole id or preceded by `/` |
| `Client.LabelIsLongestSlashFreeSuffix` | client.py:90 | no `/`-free suffix of the id is longer than the label, so the three facts of `Label` determine it |
| `Client.NodeElement` | client.py:90 | a node element keeps the node's id unchanged; its label is `Label(id)`: a `/`-free suffix of the id that is the whole id or is preceded by `/`, i.e. the text after the last `/` |
| `Client.NodeElements` | client.py:89-92 | the comprehension yields one node element per node, in input order |
| `Client.EdgeElement` | client.py:95-114 | an edge element copies `source` and `target`; its weight is the edge's weight, or 1 when absent; it is semantic iff the similarity is present and greater than 0.5 (`Client.IsSemantic`, the condition at client.py:95); exactly the semantic ones carry the similarity and the class "semantic-edge", and the others carry neither |
| `Client.Elements` | client.py:88-115 | the element list has length \|nodes\| + \|edges\|: all node elements in input order, then all edge elements in input order, with a missing key read as an empty list (`Client.NodesOf` and `Client.EdgesOf` are `graph.get("nodes", [])` and `graph.get("edges", [])`, client.py:91 and 94) |
| `Client.GraphToCytoscapeElements` | client.py:88-115 | the comprehension followed by the appending loop builds exactly `Elements(graph)` |
| `Client.ElementsArePartitioned` | client.py:115 | an element is a node element iff its position is below the node count |
| `Client.ElementsOfEmptyGraph` | client.py:91-94 | a graph whose node and edge lists are both missing or empty yields no elements |
| `Client.Warning` | client.py:148-150 | the warning is non-empty iff the graph has at least one node and no edges (the source's truthiness tests `graph.get("nodes")` and `not graph.get("edges")` at client.py:149 are `Client.Truthy`: present and non-empty), and then it is the fixed "No edges were found" text |
| `Client.PaneText` | client.py:151 | the pane text is the dump exactly when there is no warning; otherwise it is the warning, then a blank line, then the dump; the dump always ends the text |
| `Client.UpdateGraphElements` | client.py:142-151 | an empty or absent store clears the view (no elements, empty text), where `Client.IsEmptyStore` reads `not graph` (client.py:143) as no stored value or a dictionary with neither key; otherwise the elements are `Elements(graph)`, and the text is the dump, preceded by the warning and "\n\n" iff there are nodes but no edges |
| `Client.FetchGraph` | client.py:126-134 | the store is left untouched iff the language is missing or empty, and then the message is "Please enter a language."; otherwise the service gets the stripped language; success stores its graph and the message is empty; failure stores `None` and shows "Error: " and the failure text; the message is empty iff a graph was stored |
| `Client.MissingLanguageSkipsService` | client.py:128-129 | without a language the outcome does not depend on the service at all, so the service is never consulted |

## Left out

- Dash layout and stylesheet constants (client.py:1-86): pure UI configuration with no behaviour.
- The Dash runtime: callback registration, `prevent_initial_call`, and the `n_clicks` and `n_submit` inputs. `fetch_graph` never reads those inputs.
- `TrendingAnalysisService.get_trending_graph` and `asdict` are a function parameter of `FetchGraph`. Their source is not part of this model, and an exception is modelled as a `Failure` carrying `str(e)`.
- `json.dumps(graph, indent=2, ensure_ascii=False)` is a function parameter of `UpdateGraphElements`. It is a library serializer and is treated as opaque.
- Client.EdgeElement: the stored similarity is the unrounded value, not `round(similarity, 2)`. Floating-point rounding is not modelled, and similarities are reals, so NaN is not modelled either.
- A `nodes` or `edges` key that holds `null`, and an edge with a `weight` key holding `null`, are not modelled: an absent key and a present list are the only cases. Python would raise on the first and copy `None` as the weight on the second.
- The `KeyError` paths are not modelled, because `Node` always has an `id` and `EdgeIn` always has a `source` and a `target`. Python raises when a node has no `"id"` (client.py:90) or an edge has no `"source"` or `"target"` (client.py:98-99, 109-110).
- The node entries' other fields (description, stars, forks, language, topics) are not modelled: the client reads only `id`.
- A store dictionary with keys other than `nodes` and `edges` is not modelled: "empty dictionary" means neither key is present.
- main.py (HTTP routes, cache keyed by `"trending:" + lower(language)` with a TTL, error-to-status mapping) and the analyzer, domain, service and scraper modules are not part of this model.
