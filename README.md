# epydoc core in Dafny

This project models three parts of epydoc, the Python API documentation
generator, and proves properties about them:

- **The Graphviz layer** (`docwriter/dotgraph.py`).
  - `DotGraph`, `DotGraphNode` and `DotGraphEdge`: unique graph ids, node ids, attribute
    dictionaries, `link` and `_link_href` turning `<name>` references into URLs, and
    `to_dotfile`.
  - The nested UML package label: the row layout, the width and depth it reports, and the
    package colour darkening with depth.
  - The set logic behind `class_tree_graph`, `import_graph` and `call_graph`, and `name_list`.
- **The doc builder** (`docbuilder.py`).
  - The progress estimator.
  - The merge of introspected and parsed docs: `merge_attribute`, the registered merge
    functions and `_merge_posargs_and_defaults`.
  - The core of canonical-name assignment: scores, the visit rule and unreachable names.
  - Documentation inheritance: `inherit_docs` and `_inherit_info`.
- **The command line** (`cli.py`).
  - The validation tail of `parse_arguments`.
  - The logger set-up and the stage weights of `main`.
  - `ConsoleLogger`: mode selection, message filtering, message blocks, `_report`, the
    progress state, `_timestr`, `start_progress` and `end_progress`.
  - `UnifiedProgressConsoleLogger`.

How the code is modelled:

- **Objects the source updates in place are Dafny classes.** These are the graph, its
  nodes and edges, the uid registry, api docs, the inheritance store, the name registry,
  the progress estimator and both loggers. Their methods state the whole new state; the
  one exception, a variable linked under two names, is listed under Left out.
- **Loops the source runs are methods with loop invariants**, each proved against a
  specification function. The loops are the closures over subclasses and bases, import
  edges, call-graph sets, variable and base merging, module counting, the estimate total and row
  layout.
- **Pure logic is functions**, with lemmas relating them. Examples are the uid base, the
  log-level filter, `_timestr` and the merge rules.

Each Dafny module follows one part of the source:

| module | file | source |
|---|---|---|
| `Wrappers` | wrappers.dfy | Option/Result and the Python exceptions that can be raised |
| `Strings`, `Seqs` | strings.dfy, seqs.dfy | string helpers: `%d`, `%02d`, hex, `join`, `split`, first-free-suffix search |
| `Attrs` | attrs.dfy | attribute dictionaries as ordered key/value lists |
| `DotGraph` | dotgraph.dfy | the graph, node and edge classes |
| `PackageLayout` | layout.dfy | `_nested_uml_package_label`, `_nested_uml_package_color`, `name_list` |
| `GraphSets` | graphsets.dfy | the node and edge sets of the three graph builders |
| `DocMerge` | merge.dfy | the merge functions |
| `CanonicalNames` | naming.dfy | `assign_canonical_names`, `_unreachable_name_for` |
| `Inheritance` | inherit.dfy | `inherit_docs`, `_inherit_info` |
| `Progress` | progress.dfy | `_ProgressEstimator` |
| `ConsoleLog` | logger.dfy | `ConsoleLogger`, `UnifiedProgressConsoleLogger` |
| `Cli` | cli.dfy | the `parse_arguments` tail and the start of `main` |

Where the code does something other than what its documentation or its own names say,
the model follows the code. The first two points below are the rows of the Findings
table, which gives the intended behaviour beside the code's; the third is modelled as the
code behaves, with no separate corrected version:

- The progress-mode test for terminals narrower than 15 columns has no effect, and both
  logger constructors choose the mode as written.
- `link` reads `node.attribs`, which nodes do not have, so on any graph with a node it
  raises an AttributeError after linking the node defaults. Behind that, its second loop
  walks the nodes where it means the edges.
- `_nested_uml_package_color` calls `re.match` with its two arguments swapped, so the
  pattern never matches. The base colour is therefore always `d8e8ff`. This equals the
  value of `MODULE_BG`, so the model uses that constant directly.

## Model

| member | source | states |
|---|---|---|
| DotGraph.UidBase | src/epydoc/docwriter/dotgraph.py:100-111 | the uid base is the title with every non-word character replaced by `_`, lower-cased, cut to 30 characters; it is made of lower-case word characters only |
| Strings.Uniquify | src/epydoc/docwriter/dotgraph.py:113-117 | the name returned is not in the used set and is the base itself when free, else `base_n` for the least n >= 2 that is free |
| DotGraph.UidIsIdentifier | src/epydoc/docwriter/dotgraph.py:100-117 | a uniquified uid consists of word characters, is at most 30 long when the base was free, and carries a suffix of at least two characters otherwise |
| DotGraph.UidRegistry.Register | src/epydoc/docwriter/dotgraph.py:112-117 | the new uid was not in the class-wide set, is added to it, and is the first free uniquified form of the title's base |
| DotGraph.EncodeTitle | src/epydoc/docwriter/dotgraph.py:106-108 | the encoded title is pure ASCII |
| DotGraph.EncodeAsciiTitle | src/epydoc/docwriter/dotgraph.py:106-108 | encoding leaves an ASCII title unchanged |
| DotGraph.DotGraph.constructor | src/epydoc/docwriter/dotgraph.py:67-117 | a new graph has no nodes and no edges, the given body, defaults and caption, the encoded title, and a fresh unique uid registered in the class-wide set |
| DotGraph.DotGraphNode.Init | src/epydoc/docwriter/dotgraph.py:255-263 | a node built with a plain label stores it as the `label` attribute; the html label and the id are kept; the port is None |
| DotGraph.MakeNode | src/epydoc/docwriter/dotgraph.py:255-263 | a ValueError exactly when both a label and an html label are given, with the id counter unchanged; otherwise a fresh node with the next id, and the counter advanced by one |
| DotGraph.DotGraphNode.GetItem | src/epydoc/docwriter/dotgraph.py:265-266 | succeeds exactly for a present attribute, with its value; a KeyError naming the attribute otherwise |
| DotGraph.DotGraphNode.SetItem | src/epydoc/docwriter/dotgraph.py:268-274 | setting `html_label` removes `label` (a KeyError and no change when there is none) and stores the html label; setting `label` clears the html label; any other attribute is stored and nothing else changes |
| DotGraph.HtmlLabelFirst | src/epydoc/docwriter/dotgraph.py:276-284 | a node with a non-empty html label renders as `nodeN [label=<...>,k="v",...]`, the html label first |
| DotGraph.PortsInherited | src/epydoc/docwriter/dotgraph.py:303-317 | an edge renders with `headport` from the start node's port and `tailport` from the end node's port only where the edge sets none; every other attribute is its own |
| DotGraph.DotGraphEdge.constructor | src/epydoc/docwriter/dotgraph.py:287-295 | the edge joins the given nodes and stores a plain label as its `label` attribute |
| DotGraph.DotGraphEdge.SetItem | src/epydoc/docwriter/dotgraph.py:300-301 | the attribute is stored and nothing else changes |
| DotGraph.DotLines | src/epydoc/docwriter/dotgraph.py:230-251 | the lines of the dot file; their layout is stated by `DotLinesLayout` |
| DotGraph.DotLinesLayout | src/epydoc/docwriter/dotgraph.py:230-251 | the dot file is `digraph uid {`, `node [k="v",...]` for the node defaults, `edge [...]` for the edge defaults, the body when non-empty, `/* Nodes */` and one line per node in order, `/* Edges */` and one line per edge in order, then `}` |
| DotGraph.DotGraph.ToDotfile | src/epydoc/docwriter/dotgraph.py:230-251 | the text is these lines joined by newlines, node and edge lines in list order |
| DotGraph.RefTarget | src/epydoc/docwriter/dotgraph.py:186-187 | a recognised reference is `<name>`, optionally followed by one newline as Python's `$` allows, with a non-empty name of word characters and dots |
| DotGraph.PlaceholderTarget | src/epydoc/docwriter/dotgraph.py:186-187 | `<name>` is recognised, with that name |
| DotGraph.LinkHrefLookup | src/epydoc/docwriter/dotgraph.py:184-191 | after `_link_href` a non-`href` attribute is unchanged; an `href` that is a reference becomes its URL, or is removed when the linker has none; any other `href` stays |
| DotGraph.LinkHrefValid | src/epydoc/docwriter/dotgraph.py:184-191 | relinking keeps the attribute keys distinct |
| DotGraph.LinkHrefIdempotent | src/epydoc/docwriter/dotgraph.py:184-191 | when no URL is itself a reference, relinking a second time changes nothing |
| DotGraph.LinkBody | src/epydoc/docwriter/dotgraph.py:177-182 | the body with every `href=<name>` reference rewritten; pinned by `LinkBodyNoMatch` and `LinkBodySingleRef` below |
| DotGraph.LinkBodyNoMatch | src/epydoc/docwriter/dotgraph.py:177-182 | a body with no `href=<name>` reference left is copied unchanged |
| DotGraph.LinkBodySingleRef | src/epydoc/docwriter/dotgraph.py:177-182 | `href="<name>"` becomes `href="url"` when the linker has a URL and disappears otherwise |
| DotGraph.DotGraph.Link | src/epydoc/docwriter/dotgraph.py:161-182 | as written: the node defaults are linked; with any node in the graph the call then fails with an AttributeError, leaving the edge defaults and the body as they were; with no nodes the edge defaults and the body are linked too |
| DotGraph.PlaceholderHrefRewritten | src/epydoc/docwriter/dotgraph.py:168-174 | a node or edge `href` of the form `<name>`, for a name the linker has a URL for, is one linking sets to that URL |
| DotGraph.DotGraph.LinkCorrected | src/epydoc/docwriter/dotgraph.py:161-182 | corrected: the defaults, every node and every edge are linked once, and the body is linked |
| DotGraph.DotGraph.LinkAttribs | src/epydoc/docwriter/dotgraph.py:166-174 | corrected attribute steps: node defaults, each node, edge defaults and each edge get `_link_href` applied once |
| PackageLayout.NameList | src/epydoc/docwriter/dotgraph.py:699-707 | empty for no names, the name for one, `a and b` for two, and `a, b, and c` with the last after `, and` for three or more |
| PackageLayout.NameListMentionsAll | src/epydoc/docwriter/dotgraph.py:699-707 | every name occurs in the list |
| PackageLayout.PackageColor | src/epydoc/docwriter/dotgraph.py:442-458 | the colour is `#` and six hex digits |
| PackageLayout.PackageColorValue | src/epydoc/docwriter/dotgraph.py:442-458 | the six hex digits read back as the packed red, green and blue channels |
| PackageLayout.PackageRgbChannels | src/epydoc/docwriter/dotgraph.py:446-458 | each channel of the colour at depth d is the base channel less 10 per level below the top, floored at 0 |
| PackageLayout.ChannelClamped | src/epydoc/docwriter/dotgraph.py:453-456 | the channel equals `max(0, c - (depth-1)*10)` |
| PackageLayout.ChannelBound | src/epydoc/docwriter/dotgraph.py:453-456 | darkening never raises a channel |
| PackageLayout.DeeperIsDarker | src/epydoc/docwriter/dotgraph.py:453-456 | one level deeper darkens each channel by exactly 10, or to 0 |
| PackageLayout.ContextColor | src/epydoc/docwriter/dotgraph.py:442-443 | the context package is drawn in the selection colour `#ffd0d0` whatever its depth |
| PackageLayout.TopLevelColor | src/epydoc/docwriter/dotgraph.py:446-458 | a top-level module gets the module background `#d8e8ff` |
| PackageLayout.RowWidthsAreSums | src/epydoc/docwriter/dotgraph.py:419-429 | each row width the loop keeps is the sum of the widths placed in that row |
| PackageLayout.RowsFlatten | src/epydoc/docwriter/dotgraph.py:419-429 | the rows hold the submodule labels in order, each exactly once |
| PackageLayout.RowsFit | src/epydoc/docwriter/dotgraph.py:419-429 | every row fits in 80 columns or holds a single label |
| PackageLayout.RowsGreedy | src/epydoc/docwriter/dotgraph.py:420-423 | a new row is opened only when the next label would overflow the non-empty current one |
| PackageLayout.RowWidthsCoverBox | src/epydoc/docwriter/dotgraph.py:419-440 | every submodule's width is at most the widest row |
| PackageLayout.RowWidthsOverflow | src/epydoc/docwriter/dotgraph.py:419-440 | the widest row is at most 80 or is exactly one submodule's width |
| PackageLayout.DepthShape | src/epydoc/docwriter/dotgraph.py:402-434 | depth 1 exactly for a module or an empty package; otherwise one more than the deepest submodule |
| PackageLayout.WidthBounds | src/epydoc/docwriter/dotgraph.py:402-440 | a leaf's width is its last name's length plus 3; a package's width covers that and every submodule's width, and is at most 80 unless it is the name's width or one submodule's width |
| PackageLayout.LayoutWidths | src/epydoc/docwriter/dotgraph.py:416-429 | the label-building loop keeps the same row widths as the width-only specification |
| PackageLayout.Label | src/epydoc/docwriter/dotgraph.py:389-440 | the recursive specification of the label; `NestedLabel` proves the code computes it, and `DepthShape` and `WidthBounds` state its depth and width |
| PackageLayout.Layout | src/epydoc/docwriter/dotgraph.py:416-429 | the row state after placing the first n labels always has a row; `LayoutWidths` and `RowWidthsAreSums` state its widths |
| PackageLayout.NestedLabel | src/epydoc/docwriter/dotgraph.py:389-440 | returns the label, the depth and the width the recursive specification gives |
| PackageLayout.LayoutRows | src/epydoc/docwriter/dotgraph.py:416-429 | the row loop builds the cells and row widths of the specification |
| PackageLayout.SubmoduleLabels | src/epydoc/docwriter/dotgraph.py:405-406 | one label, depth and width per submodule, in order |
| GraphSets.Closure | src/epydoc/docwriter/dotgraph.py:475-486 | the queue walk yields the least set containing the roots and closed under the relation |
| GraphSets.ClosureUnique | src/epydoc/docwriter/dotgraph.py:475-486 | that least closed set is unique |
| GraphSets.ClassTreeClasses | src/epydoc/docwriter/dotgraph.py:475-491 | the classes drawn are those reached through subclasses or bases and kept by the class filter |
| GraphSets.ClassTreeEdges | src/epydoc/docwriter/dotgraph.py:493-498 | a TypeError exactly when a drawn class has None or UNKNOWN subclasses, which the loop iterates unguarded; otherwise an edge joins a drawn class to a drawn subclass, and there are no others |
| GraphSets.ImportedModuleLongest | src/epydoc/docwriter/dotgraph.py:515-520 | an import resolves to the module of its longest prefix that names one, or to nothing when no prefix does |
| GraphSets.ImportSource | src/epydoc/docwriter/dotgraph.py:515-520 | the prefix search returns that module |
| GraphSets.ImportEdges | src/epydoc/docwriter/dotgraph.py:512-523 | an edge goes from a drawn imported module to a drawn importing module, exactly for the imports that resolve |
| GraphSets.RoutinesIn | src/epydoc/docwriter/dotgraph.py:551-553 | the routines among a namespace's variable values |
| GraphSets.ConcatMapMembers | src/epydoc/docwriter/dotgraph.py:544-553 | an item of the concatenated lists is an item of one of them, and each item of each list is in the concatenation |
| GraphSets.RequestedMembers | src/epydoc/docwriter/dotgraph.py:544-553 | a function is requested exactly when some listed doc contributes it |
| GraphSets.RequestedFunctions | src/epydoc/docwriter/dotgraph.py:544-553 | the loop collects the requested functions |
| GraphSets.Profiled | src/epydoc/docwriter/dotgraph.py:558-559 | the requested functions that the profile lists as a caller or a callee, and no more |
| GraphSets.FuncSet | src/epydoc/docwriter/dotgraph.py:562-568 | the profiled functions, plus their callers and callees when asked for |
| GraphSets.CallEdges | src/epydoc/docwriter/dotgraph.py:585-592 | caller-to-function and function-to-callee edges between drawn functions, and no others |
| GraphSets.CallGraphSets | src/epydoc/docwriter/dotgraph.py:539-592 | no profile gives an empty graph with a warning; otherwise the nodes and edges above |
| DocMerge.Set | src/epydoc/docbuilder.py:695-696 | after `setattr` the attribute has the value given and every other attribute is unchanged |
| DocMerge.PrecedenceFor | src/epydoc/docbuilder.py:670-672 | the precedence is looked up with the default as fallback, and any word other than parse or introspect is a ValueError whose message quotes that word |
| DocMerge.BuiltinPrecedence | src/epydoc/docbuilder.py:476-491 | with the built-in table, parsing wins exactly for repr, is_imported, is_alias, docformat, is_package, sort_spec and filename |
| DocMerge.MergeValue | src/epydoc/docbuilder.py:714-726 | the merged value is one of the two unless both are docs, when it is their merge; two known values that are not both docs and not None fail `merge_docs`'s `isinstance` assertion (docbuilder.py:564) with an AssertionError |
| DocMerge.MergeValueUnknownSide | src/epydoc/docbuilder.py:720-724 | an UNKNOWN first value yields the second; an UNKNOWN second value yields the precedence side |
| DocMerge.MergeDocstring | src/epydoc/docbuilder.py:798-802 | the first docstring is kept exactly when introspection has precedence and it is neither None nor UNKNOWN, or the two agree |
| DocMerge.MergeImportedFrom | src/epydoc/docbuilder.py:742-746 | only an introspected None is accepted, giving None; anything else fails the assertion |
| DocMerge.MergedVariables | src/epydoc/docbuilder.py:699-712 | the merged dictionary has the names of both; a shared name is bound to the merged variable, any other name to its own |
| DocMerge.MergeShared | src/epydoc/docbuilder.py:700-706 | the first loop binds every shared name to the merged variable in both dictionaries |
| DocMerge.CopyMissing | src/epydoc/docbuilder.py:708-710 | `setdefault` adds exactly the names the first dictionary lacks |
| DocMerge.MergeVariables | src/epydoc/docbuilder.py:699-712 | both loops together compute the merged dictionary, and the second dictionary gets the shared merges |
| DocMerge.MergeBases | src/epydoc/docbuilder.py:748-781 | the precedence side's list on a length mismatch or a name disagreement; otherwise the bases merged pairwise |
| DocMerge.DefaultsMerged | src/epydoc/docbuilder.py:783-796 | the precedence side's list on a length mismatch; otherwise the same length, each pair merged when both are present and taken from the precedence side otherwise |
| DocMerge.MergePosargDefaults | src/epydoc/docbuilder.py:783-796 | the loop builds that list |
| DocMerge.CallHandler | src/epydoc/docbuilder.py:804-816 | each registered attribute dispatches to its merge function |
| DocMerge.MergedAttribute | src/epydoc/docbuilder.py:669-697 | the value both docs hold after the merge; `MergedAttributeKnown` states that a known value is never lost |
| DocMerge.MergedAttributeKnown | src/epydoc/docbuilder.py:669-697 | a successful merge leaves the attribute known exactly when either side knew it |
| DocMerge.BuiltinTableNeverRejects | src/epydoc/docbuilder.py:669-697 | with the built-in table only a registered merge function on two known values can fail |
| DocMerge.MergeAttribute | src/epydoc/docbuilder.py:669-697 | on success both docs hold the merged value for the attribute and nothing else changes; on failure neither doc changes |
| DocMerge.MergePosargsAndDefaults | src/epydoc/docbuilder.py:646-667 | nothing changes when either side is UNKNOWN or the lists agree; an introspected `...` or parse precedence copies the parsed posargs and defaults into the introspected doc; otherwise the introspected ones are copied into the parsed doc; afterwards both docs hold the same posargs |
| CanonicalNames.ChildScore | src/epydoc/docbuilder.py:916-920 | a variable's score is its parent's less 1, and less 10 or 100 for an unknown or true `is_imported` and 10 or 1000 for an unknown or true `is_alias`; only a known non-imported non-alias keeps `score - 1` |
| CanonicalNames.ChildScoreRanking | src/epydoc/docbuilder.py:916-920 | a non-alias beats every alias, and with equal `is_alias` a known non-import beats every other |
| CanonicalNames.VisitStep | src/epydoc/docbuilder.py:886-902 | a visit that proceeds records a score for the doc, names it, and touches no other doc's score |
| CanonicalNames.VisitRaisesScore | src/epydoc/docbuilder.py:883-887 | a revisit proceeds only with a strictly better score and raises the recorded score, so the recursion cannot cycle |
| CanonicalNames.FirstNameKept | src/epydoc/docbuilder.py:890-896 | a name the doc had before its first visit is kept with score MaxInt, and no later visit replaces it |
| CanonicalNames.NameRegistry.constructor | src/epydoc/docbuilder.py:858-866 | the registry starts with no scores and no unreachable names |
| CanonicalNames.NameRegistry.Visit | src/epydoc/docbuilder.py:883-902 | updates the scores and names as the visit rule says, and returns whether to recurse with which name and score |
| CanonicalNames.NameRegistry.UnreachableNameFor | src/epydoc/docbuilder.py:952-986 | an unnamed-root top-level module keeps its name with score -1000; any other value gets the first free `base`, `base-2`, ... name, recorded, with score -10000 |
| Inheritance.Inheritable | src/epydoc/docbuilder.py:999-1001 | the names a subclass inherits are those not of the private `__x` form |
| Inheritance.Provider | src/epydoc/docbuilder.py:993-1005 | the first base in the MRO, other than the class and with known variables, that has an inheritable variable of the name, or none when no base has one |
| Inheritance.InheritFieldGrows | src/epydoc/docbuilder.py:1052-1058 | inheriting one field keeps every doc and field and every real value, and touches only the overriding variable and its value |
| Inheritance.InheritFieldsGrow | src/epydoc/docbuilder.py:1052-1058 | the same for the whole list of inherited fields |
| Inheritance.InfoGrowsTrans | src/epydoc/docbuilder.py:1052-1058 | keeping every real field composes |
| Inheritance.Store.constructor | src/epydoc/docbuilder.py:992-1014 | the store holds the given dictionaries and links |
| Inheritance.FieldSlot | src/epydoc/docbuilder.py:1052-1058 | inheriting one field: the overriding variable takes the overridden variable's real value; failing that, its value doc takes the overridden value doc's real value when its own is not real; no other doc and no other field changes |
| Inheritance.FieldsOne | src/epydoc/docbuilder.py:1051-1058 | over the list of distinct fields, each field ends as inheriting that field alone would leave it, whatever the order |
| Inheritance.InheritedAttribsDistinct | src/epydoc/docbuilder.py:1016-1019 | `_INHERITED_ATTRIBS` lists each field once |
| Inheritance.InfoAfterField | src/epydoc/docbuilder.py:1021-1058 | `_inherit_info` field by field: a variable with a docstring other than None or UNKNOWN inherits nothing; an unlisted field never changes; a listed field the variable has ends equal to the overridden variable's when that is real; failing that the value doc's field ends equal to the overridden value doc's when that is real and its own is not; otherwise nothing changes |
| Inheritance.Store.InheritInfo | src/epydoc/docbuilder.py:1021-1058 | the fields become `_inherit_info`'s result for the variable and the one it overrides (as `InfoAfterField` describes), and no real field is lost |
| Inheritance.Store.InheritName | src/epydoc/docbuilder.py:999-1014 | a non-private missing name is inherited; a non-private shadowing local variable without an `overrides` link is linked to the base's variable and `_inherit_info` runs on it; otherwise links and fields are unchanged |
| Inheritance.ChainSnoc | src/epydoc/docbuilder.py:1012-1014 | linking one more variable runs `_inherit_info` on it after the earlier ones, and the record of links stays exact |
| Inheritance.ChainConcat | src/epydoc/docbuilder.py:992-1014 | the links set by two consecutive bases chain up in order |
| Inheritance.Store.InheritFrom | src/epydoc/docbuilder.py:996-1014 | the class gains exactly the base's inheritable names it lacked, bound to the base's variables; its own names keep their variables; old links stay; every new link is justified by that base; every local variable without a link whose name the base can pass on gets one; the fields are `_inherit_info` run on the new links in the order they were set |
| Inheritance.Store.InheritDocs | src/epydoc/docbuilder.py:992-1014 | the class's dictionary is its own plus, for every other name, the variable of the first base in the MRO providing it; old links stay and each new one joins a local variable to a variable of the same name in a base; a local variable without a link whose name a base provides gets one, and when the class holds it under that name only it is linked exactly then, to the first provider's variable; the fields are `_inherit_info` run on the new links in order |
| Inheritance.DocsStep | src/epydoc/docbuilder.py:992-1014 | visiting one more base keeps the table, the links and the fields as the rules say |
| Inheritance.DocsSkip | src/epydoc/docbuilder.py:994-995 | skipping the class itself or a base with UNKNOWN variables keeps all of it |
| Inheritance.CompleteStep | src/epydoc/docbuilder.py:1009-1014 | visiting one more base keeps every providable local variable linked, a sole one to the first provider's variable |
| Inheritance.SoleInTable | src/epydoc/docbuilder.py:1002-1004 | a variable the class holds under one name only, and no base holds, is the inherited table's entry for that name alone |
| Inheritance.ProviderSnoc | src/epydoc/docbuilder.py:993-1005 | the provider after one more base is the earlier one, else that base when it counts and has the name |
| Inheritance.InheritStep | src/epydoc/docbuilder.py:993-1007 | visiting one more base extends the inherited table as the first-provider rule says |
| Inheritance.OverridesStep | src/epydoc/docbuilder.py:1009-1014 | visiting one more base keeps every `overrides` link justified |
| Inheritance.ProviderSkip | src/epydoc/docbuilder.py:994-995 | the class itself and bases with UNKNOWN variables provide nothing |
| Progress.EstPkgModules | src/epydoc/docbuilder.py:459-469 | the estimate is the number of module files reached through package directories, and 0 for anything that is not a package directory |
| Progress.ProgressEstimator.constructor | src/epydoc/docbuilder.py:438-446 | one estimate per item: the module count of a package directory, 1 otherwise; nothing completed |
| Progress.ProgressEstimator.Tick | src/epydoc/docbuilder.py:263 | one more item completed |
| Progress.ProgressEstimator.Total | src/epydoc/docbuilder.py:449 | the sum of all the estimates |
| Progress.ProgressEstimator.Fraction | src/epydoc/docbuilder.py:448-450 | a ZeroDivisionError exactly when the estimates sum to 0; otherwise a non-negative fraction that times the total gives the completed count |
| Progress.ProgressEstimator.ReviseEstimate | src/epydoc/docbuilder.py:452-457 | a KeyError and no change for an unknown package; otherwise the package's estimate is dropped, each module counts 1 and each subpackage its module count |
| Progress.CountModules | src/epydoc/docbuilder.py:454-455 | every listed module is estimated at 1 and nothing else changes |
| Progress.CountSubpackages | src/epydoc/docbuilder.py:456-457 | every subpackage is estimated at its module count and nothing else changes |
| Progress.SumRemove | src/epydoc/docbuilder.py:449 | the total splits into one key's estimate and the rest |
| Progress.SumUpdate | src/epydoc/docbuilder.py:449 | the total after setting one estimate |
| Progress.ReviseTotal | src/epydoc/docbuilder.py:452-457 | when the listing's module pairs and subpackages are new to the estimate, the total loses the package's own estimate and gains one per module pair plus the module count of each subpackage |
| Progress.SumDisjoint | src/epydoc/docbuilder.py:449 | the total over two maps with disjoint keys is the sum of their totals |
| Progress.ReviseFreshTotal | src/epydoc/docbuilder.py:412-415 | the special case of `ReviseTotal` at this call site: a package whose listing finds only a new subpackage changes the total by that subpackage's module count less the package's old estimate |
| ConsoleLog.LogPrefix | src/epydoc/cli.py:447-463 | no message below the debug level is shown; every prefix is nine characters ending in `: `, so messages line up |
| ConsoleLog.VerbosityTable | src/epydoc/cli.py:447-463 | errors show from verbosity -2, warnings from -1, docstring warnings from 1, info from 3, and debug messages in debug mode only |
| ConsoleLog.MoreVerboseShowsMore | src/epydoc/cli.py:447-463 | a message shown at one verbosity is shown, with the same prefix, at every higher one |
| ConsoleLog.HiddenWarningsAreDocstringWarnings | src/epydoc/cli.py:447-463 | a hidden message of warning level or above needs verbosity below -1, of error level below -2 |
| ConsoleLog.ProgressModeAsWritten | src/epydoc/cli.py:398-409 | as written: hidden exactly below verbosity 0, a list exactly from 2, a redrawn bar only with the terminal controls it needs |
| ConsoleLog.ProgressMode | src/epydoc/cli.py:398-409 | corrected: as written, but a redrawn bar also needs at least 15 columns; `ProgressModeTable` gives the rest |
| ConsoleLog.NarrowTerminalGetsBar | src/epydoc/cli.py:399-408 | as written: a 10-column terminal with carriage return and clear-to-end-of-line gets the redrawn bar |
| ConsoleLog.ProgressModeTable | src/epydoc/cli.py:398-409 | corrected: hide below 0, a list from 2, a bar at 0 and 1; a terminal narrower than 15 gets the simple bar; otherwise the choice the code makes |
| ConsoleLog.Trunc | src/epydoc/cli.py:553 | `int(x)` truncates toward zero |
| ConsoleLog.TimeStr | src/epydoc/cli.py:552-557 | `MM:SS`, five characters, below an hour and `H:MM:SS` from an hour up; `TimeStrRoundTrip` reads it back |
| ConsoleLog.ElapsedTimeStr | src/epydoc/cli.py:552-557 | `_timestr` on a float: the seconds are truncated with `int`, and for a non-negative time the fields read back to those whole seconds, three fields from an hour up and two below |
| ConsoleLog.TimeStrRoundTrip | src/epydoc/cli.py:552-557 | a time string is `H:MM:SS` from an hour up and `MM:SS` below, and its fields read back as the number of seconds |
| ConsoleLog.MinutesRoundTrip | src/epydoc/cli.py:556-557 | below an hour: two digit fields worth `dt` seconds |
| ConsoleLog.HoursRoundTrip | src/epydoc/cli.py:554-555 | from an hour up: three digit fields worth `dt` seconds |
| ConsoleLog.Routed | src/epydoc/cli.py:465-485 | a message goes into the innermost open block, or to the terminal, which ends a simple bar; exactly one more message is delivered per message |
| ConsoleLog.BarsStayActive | src/epydoc/cli.py:487-550 | after a progress call the bars are active, while a list or hidden display keeps its state |
| ConsoleLog.SimpleBarGrows | src/epydoc/cli.py:540-550 | the simple bar never takes back a dot |
| ConsoleLog.ConsoleLogger.constructor | src/epydoc/cli.py:360-409 | no progress, no blocks, no start time, no task times, nothing suppressed; the mode chosen as written (`ProgressModeAsWritten`), the width test overridden |
| ConsoleLog.ConsoleLogger.StartBlock | src/epydoc/cli.py:411-412 | a new empty block is open, and no message is lost |
| ConsoleLog.ConsoleLogger.Report | src/epydoc/cli.py:465-485 | the blocks, terminal output and progress state become what routing gives |
| ConsoleLog.ConsoleLogger.EndBlock | src/epydoc/cli.py:414-429 | an IndexError and no change with no block open; otherwise the innermost block is closed and, when non-empty, reported as one box; no message is lost |
| ConsoleLog.ConsoleLogger.Log | src/epydoc/cli.py:447-463 | a message the level filter hides is dropped, docstring warnings and above counted as suppressed; a shown one is reported with its prefix |
| ConsoleLog.ConsoleLogger.Progress | src/epydoc/cli.py:487-550 | a multiline bar without a start time is a TypeError with no change; otherwise the progress state advances as the mode says |
| ConsoleLog.ConsoleLogger.StartProgress | src/epydoc/cli.py:559-566 | a ValueError and no change while progress is shown; otherwise the start time and header are set |
| ConsoleLog.ConsoleLogger.EndProgress | src/epydoc/cli.py:568-579 | the full bar is drawn first: a multiline bar without a start time is a TypeError with no change; otherwise the progress display ends, and the elapsed time and header are recorded, or a TypeError with no time recorded when no start time was set |
| ConsoleLog.ConsoleLogger.FinishProgress | src/epydoc/cli.py:570-579 | after the full bar, the display ends; the elapsed time and header are recorded, or a TypeError with no time recorded when no start time was set |
| ConsoleLog.UnifiedFraction | src/epydoc/cli.py:602-610 | fails exactly when the stage is beyond the list, the list is empty, or the weights sum to 0 |
| ConsoleLog.UnifiedFractionBounds | src/epydoc/cli.py:602-610 | within a stage the overall fraction stays in 0..1 |
| ConsoleLog.UnifiedStagesJoin | src/epydoc/cli.py:602-610 | the end of one stage is the start of the next |
| ConsoleLog.UnifiedStagesSpan | src/epydoc/cli.py:602-610 | the first stage starts at 0 and the last ends at 1 |
| ConsoleLog.StageFractionBounds | src/epydoc/cli.py:604-605 | one stage's contribution stays in 0..1 |
| ConsoleLog.UnifiedLogger.constructor | src/epydoc/cli.py:596-600 | stage 0, no task, and a fresh console logger whose mode is chosen as written |
| ConsoleLog.UnifiedLogger.StartProgress | src/epydoc/cli.py:612-616 | the task is recorded; the console logger is started without header only at stage 0; the stage advances unless that start fails |
| ConsoleLog.UnifiedLogger.EndProgress | src/epydoc/cli.py:618-620 | nothing changes before the last stage; at the last stage the inherited `end_progress` draws the full bar through this class's `progress`, so an IndexError or ZeroDivisionError from the overall fraction changes nothing, and otherwise the console logger's progress ends with that class's outcome and state |
| ConsoleLog.UnifiedLogger.Progress | src/epydoc/cli.py:602-610 | the fraction's error with no change when it fails; otherwise the console logger's progress advances to the overall fraction, or a TypeError with no change for a multiline bar without a start time |
| Cli.ParseArguments | src/epydoc/cli.py:198-217 | succeeds exactly when names are given, the inheritance style is known, parsing or introspection is enabled, and text output has one name; errors checked in the source's order; verbosity is verbose minus quiet and the target defaults to the action |
| Cli.Stages | src/epydoc/cli.py:240-251 | six to eight weights, building (40) first and writing (100) last; `StagesPerformed` gives the exact list |
| Cli.StagesPerformed | src/epydoc/cli.py:236-249 | the stage list is the weights of the stages that run: merging only with both parse and introspect, linking only with parsing; at least six stages, 40 first, 100 last |
| Cli.Setup | src/epydoc/cli.py:226-251 | text output drops parsing when introspecting and uses no logger; verbosity above 1 gets the console logger; otherwise the unified logger with the stage list |
| Cli.SetupStagesUsable | src/epydoc/cli.py:198-251 | after successful argument parsing the unified logger's stages are non-empty, sum above 0, and span 0 to 1 |

## Left out

- Terminal I/O: printing, `sys.stdout`, curses capability queries, colours and `wordwrap`.
  The terminal is a parameter (`Terminal`), and printed output is a list of messages and
  boxes.
- Rendering: `to_html`, `render`, `write`, `get_dot_version`, `print_times` and the
  HTML node construction (`add_valdoc_nodes`, `specialize_valdoc_node`), because they call
  external programs or only format text.
- `package_tree_graph`, non-UML style: the walk over submodules and the node and edge
  construction (dotgraph.py:345-359) are left out, because the model keeps the set logic
  of the class, import and call graphs only. The UML style wraps the nested label, whose
  functions are modelled.
- Floating point is modelled as exact reals. No rounding is modelled, and the percentages
  printed by the list and multiline bars are not modelled.
- Dictionary and set iteration order is the order of the model's sequences. Python's order
  is not modelled, and the dot file's attribute order follows insertion.
- The `merge_docs` recursion, its class checks and its cycle check are a parameter
  (`MergeContext.mergeDocs`). The log messages of the merge functions are left out.
- `assign_canonical_names`: the recursion over variables and reachable values, and
  `_fix_self_shadowing_var`, are left out. The model covers one visit, the score of a
  child and the unreachable name.
- `sys.maxint` is modelled as the 64-bit value. The `UNREACHABLE` marker string is a
  parameter.
- `class_doc.mro()` is an input sequence. The bad-base warnings are left out.
- The graph closures use a visited set. The source's queue appends duplicates. The result
  set is the same on acyclic hierarchies, and the source would not terminate on a cyclic
  one.
- The file system is a tree of entries. Whether a path is a module file or a package
  directory is its tag, and `os.listdir` gives the entry's children.
- The message text passed to the unified logger's `progress` is left out, because the
  model keeps no progress messages.
- The log levels (DEBUG 10, INFO 20, DOCSTRING_WARNING 25, WARNING 30, ERROR 40) are those
  of epydoc's `log` module, taken as constants. `log.py` is not part of this model.
- Titles are modelled as unicode strings. The source encodes a title only when it is
  `unicode` (dotgraph.py:106-107); a byte-string title is kept as it is, and `\W` then
  works byte by byte. Byte-string titles are not modelled.
- DocMerge.HandlerSpec: an attribute value of the wrong shape (a variable table that is not
  a dictionary, say) is outside the model. It is marked with TypeError, while Python raises
  whatever the first operation on it raises, such as an AttributeError from `.items()`.
- `optparser.error` exits the program. The model returns `Failure(ValueError(message))`.
- The progress estimator's `progress` call sites and the module-name computation around
  them are left out. The model covers the counter and the fraction.
- ConsoleLog.ConsoleLogger.Progress: the text drawn by each bar is not modelled, only the
  progress state the next call depends on.
- ConsoleLog.ConsoleLogger.StartProgress: the bold header line that `start_progress`
  prints when the display is shown and a header is given (cli.py:565-566) is not recorded
  in the output; only the messages and boxes of `_report` are.
- DocMerge.PrecedenceFor: the message quotes the bad word in single quotes, as `%r` does
  for an ordinary string. Python's escaping of quotes and special characters inside a
  `repr` is not modelled.
- GraphSets.CallGraphSets: the warning is a flag, not a log call.
- Inheritance.Store.InheritDocs: a local variable the class holds under two names, or
  one a base also holds, may be linked through either name. Which link wins depends on
  dictionary order, so the model states only that the link is justified.
- DotGraph.DotGraph.LinkCorrected requires each node and each edge object to occur once in
  its list; Python allows repeats. A repeated object would be linked twice, which gives
  the same attributes whenever no URL is itself a reference (`LinkHrefIdempotent`).

## Findings

| source | as written | input that shows it | evidently intended | confidence | as-written member | corrected member |
|---|---|---|---|---|---|---|
| src/epydoc/docwriter/dotgraph.py:169-174 | `node.attribs` and `edge.attribs` name an attribute nodes and edges do not have (they store `_attribs`), so `link` raises an AttributeError on the first node; behind that, the loop meant for the edges iterates `self.nodes` | any graph with one node, such as a node with `href="<pkg.mod>"` where the linker has a URL for `pkg.mod` | read `_attribs`, and iterate `self.edges` in the second loop | not executed | DotGraph.DotGraph.Link, DotGraph.PlaceholderHrefRewritten | DotGraph.DotGraph.LinkCorrected |
| src/epydoc/cli.py:400-408 | the `simple-bar` chosen for a terminal narrower than 15 columns is overwritten by the `if`/`elif`/`else` that follows | verbosity 0 on a 10-column terminal with carriage return and clear-to-end-of-line gives `bar` | narrow terminals keep the simple bar | not executed | ConsoleLog.NarrowTerminalGetsBar | ConsoleLog.ProgressModeTable |
