/** The in-memory dot graph of the graph writer: a graph with process-wide
    unique uids, nodes with process-wide sequential ids and a plain or an HTML
    label, edges that inherit their nodes' ports, cross-reference linking of
    `href` attributes and of the free-form body, and serialisation to the
    Graphviz `dot` language.  The process-wide class attributes `_uids` and
    `_next_id` are the explicit objects UidRegistry and NodeIds. */
module DotGraph {
  import opened Wrappers
  import opened Strings
  import opened Attrs
  import opened Seqs

  const MaxUidLength: nat := 30

  /** `re.sub(r'\W', '_', title).lower()[:30]`: the uid before uniquifying. */
  function UidBase(title: string): (b: string)
    ensures |b| == if |title| < MaxUidLength then |title| else MaxUidLength
    ensures forall i :: 0 <= i < |b| ==>
              b[i] == if IsWordChar(title[i]) then LowerChar(title[i]) else '_'
    ensures forall i :: 0 <= i < |b| ==> IsWordChar(b[i]) && !('A' <= b[i] <= 'Z')
  {
    var lowered := seq(|title|, i requires 0 <= i < |title| =>
                         if IsWordChar(title[i]) then LowerChar(title[i]) else '_');
    if |lowered| <= MaxUidLength then lowered else lowered[..MaxUidLength]
  }

  /** Every uid is made of word characters: the base is, and the suffix
      `_<n>` adds an underscore and digits.  A suffixed uid is longer than
      the 30-character base: the truncation happens before uniquifying. */
  lemma UidIsIdentifier(title: string, uid: string, used: set<string>)
    requires IsUniquified(uid, UidBase(title), '_', used)
    ensures forall i :: 0 <= i < |uid| ==> IsWordChar(uid[i])
    ensures UidBase(title) !in used ==> |uid| <= MaxUidLength
    ensures UidBase(title) in used ==> |uid| >= |UidBase(title)| + 2
  {
    var base := UidBase(title);
    if base in used {
      var n: nat :| n >= 2 && uid == Suffixed(base, '_', n);
      var digits := NatToString(n);
      assert uid == base + ['_'] + digits;
      forall i | 0 <= i < |uid| ensures IsWordChar(uid[i]) {
        if i > |base| {
          assert uid[i] == digits[i - |base| - 1];
        }
      }
    }
  }

  /** `title.encode('ascii', 'xmlcharrefreplace')`. */
  function EncodeTitle(title: string): (r: string)
    ensures forall i :: 0 <= i < |r| ==> r[i] as int < 128
    decreases |title|
  {
    if title == [] then ""
    else
      var c := title[0];
      var head := if c as int < 128 then [c] else "&#" + NatToString(c as int) + ";";
      assert forall i :: 0 <= i < |head| ==> head[i] as int < 128;
      head + EncodeTitle(title[1..])
  }

  lemma {:induction false} EncodeAsciiTitle(title: string)
    requires forall i :: 0 <= i < |title| ==> title[i] as int < 128
    ensures EncodeTitle(title) == title
    decreases |title|
  {
    if title != [] {
      EncodeAsciiTitle(title[1..]);
      assert title == [title[0]] + title[1..];
    }
  }

  /** The set of every uid generated so far (`DotGraph._uids`). */
  class UidRegistry {
    var uids: set<string>

    constructor ()
      ensures uids == {}
    {
      uids := {};
    }

    /** The uid computation of `DotGraph.__init__`. */
    method Register(title: string) returns (uid: string)
      modifies this
      ensures uid !in old(uids) && uids == old(uids) + {uid}
      ensures IsUniquified(uid, UidBase(title), '_', old(uids))
    {
      uid := Uniquify(UidBase(title), '_', uids);
      uids := uids + {uid};
    }
  }

  /** The next node id (`DotGraphNode._next_id`). */
  class NodeIds {
    var next: nat

    constructor ()
      ensures next == 0
    {
      next := 0;
    }
  }

  class DotGraphNode {
    var attribs: Attribs
    var htmlLabel: Option<string>
    const id: nat
    var port: Option<string>

    /** A node never carries both labels. */
    ghost predicate Valid()
      reads this
    {
      Attrs.Valid(attribs) && (htmlLabel.Some? ==> !Has(attribs, "label"))
    }

    constructor Init(id: nat, plainLabel: Option<string>, htmlLabel: Option<string>, attribs: Attribs)
      requires plainLabel.None? || htmlLabel.None?
      requires Attrs.Valid(attribs) && !Has(attribs, "label")
      ensures Valid()
      ensures this.id == id && this.htmlLabel == htmlLabel && port == None
      ensures this.attribs == if plainLabel.Some? then Put(attribs, "label", plainLabel.value) else attribs
    {
      this.id := id;
      this.htmlLabel := htmlLabel;
      this.port := None;
      if plainLabel.Some? {
        PutValid(attribs, "label", plainLabel.value);
        this.attribs := Put(attribs, "label", plainLabel.value);
      } else {
        this.attribs := attribs;
      }
    }

    /** `node[attr]`. */
    function GetItem(attr: string): (r: Result<string>)
      reads this
      ensures r.Success? <==> Has(attribs, attr)
      ensures r.Success? ==> Lookup(attribs, attr) == Some(r.value)
      ensures r.Failure? ==> r.error == KeyError(attr)
    {
      match Lookup(attribs, attr)
      case Some(v) => Success(v)
      case None => Failure(KeyError(attr))
    }

    /** `node[attr] = val`: `'html_label'` moves the label out of the attribute
        map (KeyError when there is none); `'label'` clears the HTML label. */
    method SetItem(attr: string, val: string) returns (o: Outcome)
      requires Valid()
      modifies this
      ensures Valid()
      ensures o.Fail? <==> attr == "html_label" && !Has(old(attribs), "label")
      ensures o.Fail? ==> o.error == KeyError("label") &&
                          attribs == old(attribs) && htmlLabel == old(htmlLabel)
      ensures o.Pass? && attr == "html_label" ==>
                attribs == Remove(old(attribs), "label") && htmlLabel == Some(val)
      ensures attr == "label" ==> attribs == Put(old(attribs), attr, val) && htmlLabel == None
      ensures attr != "label" && attr != "html_label" ==>
                attribs == Put(old(attribs), attr, val) && htmlLabel == old(htmlLabel)
      ensures port == old(port)
    {
      if attr == "html_label" {
        if !Has(attribs, "label") {
          return Fail(KeyError("label"));
        }
        RemoveValid(attribs, "label");
        RemoveLookup(attribs, "label", "label");
        attribs := Remove(attribs, "label");
        htmlLabel := Some(val);
      } else {
        if attr == "label" {
          htmlLabel := None;
        } else if htmlLabel.Some? {
          PutLookup(attribs, attr, val, "label");
        }
        PutValid(attribs, attr, val);
        attribs := Put(attribs, attr, val);
      }
      o := Pass;
    }

    function Line(): string
      reads this
    {
      NodeLine(id, attribs, htmlLabel)
    }
  }

  /** `DotGraphNode(label, html_label, **attribs)`: raises ValueError when
      both labels are given, and otherwise takes the next id. */
  method MakeNode(ids: NodeIds, plainLabel: Option<string>, htmlLabel: Option<string>, attribs: Attribs)
    returns (r: Result<DotGraphNode>)
    requires Attrs.Valid(attribs) && !Has(attribs, "label")
    modifies ids
    ensures r.Failure? <==> plainLabel.Some? && htmlLabel.Some?
    ensures r.Failure? ==> r.error == ValueError("Use label or html_label, not both.") &&
                           ids.next == old(ids.next)
    ensures r.Success? ==>
              fresh(r.value) && r.value.Valid() &&
              r.value.id == old(ids.next) && ids.next == old(ids.next) + 1 &&
              r.value.htmlLabel == htmlLabel && r.value.port == None &&
              r.value.attribs == (if plainLabel.Some? then Put(attribs, "label", plainLabel.value) else attribs)
  {
    if plainLabel.Some? && htmlLabel.Some? {
      return Failure(ValueError("Use label or html_label, not both."));
    }
    var node := new DotGraphNode.Init(ids.next, plainLabel, htmlLabel, attribs);
    ids.next := ids.next + 1;
    r := Success(node);
  }

  /** `DotGraphNode.to_dotfile`: the HTML label (when non-empty) goes first;
      a node without attributes is written `node<id>[]` (Python formats the
      empty list). */
  function NodeLine(id: nat, attribs: Attribs, htmlLabel: Option<string>): string {
    var items := Quoted(attribs);
    var all := if htmlLabel.Some? && htmlLabel.value != "" then ["label=<" + htmlLabel.value + ">"] + items
               else items;
    "node" + NatToString(id) + (if all != [] then " [" + Join(all, ",") + "]" else "[]")
  }

  /** The attribute list of a node with an HTML label: the label, then the
      quoted attributes. */
  lemma HtmlLabelItems(x: string, attribs: Attribs)
    ensures Join([x] + Quoted(attribs), ",") ==
            x + (if attribs == [] then "" else "," + Join(Quoted(attribs), ","))
  {
    var items := Quoted(attribs);
    if attribs == [] {
      assert [x] + items == [x];
    } else {
      JoinCons(x, items, ",");
      AppendAssoc(x, ",", Join(items, ","));
    }
  }

  /** A node with an HTML label lists `label=<...>` before its attributes. */
  lemma HtmlLabelFirst(id: nat, attribs: Attribs, h: string)
    requires h != ""
    ensures NodeLine(id, attribs, Some(h)) ==
            "node" + NatToString(id) + " [" + "label=<" + h + ">" +
            (if attribs == [] then "" else "," + Join(Quoted(attribs), ",")) + "]"
  {
    var head := "node" + NatToString(id);
    var x := "label=<" + h + ">";
    var tail := if attribs == [] then "" else "," + Join(Quoted(attribs), ",");
    HtmlLabelItems(x, attribs);
    var y := Join([x] + Quoted(attribs), ",");
    assert NodeLine(id, attribs, Some(h)) == head + (" [" + y + "]");
    AppendAssoc(head, " [" + y, "]");
    AppendAssoc(head, " [", y);
    AppendAssoc(head + " [", x, tail);
  }

  /** Port inheritance of `DotGraphEdge.to_dotfile`, on a copy of the edge's attributes. */
  function WithPorts(attribs: Attribs, startPort: Option<string>, endPort: Option<string>): Attribs {
    var a := if startPort.Some? && !Has(attribs, "headport") then Put(attribs, "headport", startPort.value)
             else attribs;
    if endPort.Some? && !Has(attribs, "tailport") then Put(a, "tailport", endPort.value) else a
  }

  /** The start node's port becomes the head port and the end node's port the
      tail port, each only when the edge does not set it; nothing else changes. */
  lemma PortsInherited(attribs: Attribs, startPort: Option<string>, endPort: Option<string>, k: string)
    ensures var r := WithPorts(attribs, startPort, endPort);
            Lookup(r, k) ==
              if k == "headport" && !Has(attribs, "headport") && startPort.Some? then startPort
              else if k == "tailport" && !Has(attribs, "tailport") && endPort.Some? then endPort
              else Lookup(attribs, k)
  {
    var a := if startPort.Some? && !Has(attribs, "headport") then Put(attribs, "headport", startPort.value)
             else attribs;
    if startPort.Some? && !Has(attribs, "headport") {
      PutLookup(attribs, "headport", startPort.value, k);
    }
    if endPort.Some? && !Has(attribs, "tailport") {
      PutLookup(a, "tailport", endPort.value, k);
    }
  }

  /** `DotGraphEdge.to_dotfile` on the copy with inherited ports. */
  function EdgeLine(startId: nat, endId: nat, attribs: Attribs): string {
    var items := Join(Quoted(attribs), ",");
    "node" + NatToString(startId) + " -> node" + NatToString(endId) +
    (if items != "" then " [" + items + "]" else "")
  }

  class DotGraphEdge {
    const start: DotGraphNode
    const end: DotGraphNode
    var attribs: Attribs

    constructor (start: DotGraphNode, end: DotGraphNode, plainLabel: Option<string>, attribs: Attribs)
      ensures this.start == start && this.end == end
      ensures this.attribs == if plainLabel.Some? then Put(attribs, "label", plainLabel.value) else attribs
    {
      this.start := start;
      this.end := end;
      this.attribs := if plainLabel.Some? then Put(attribs, "label", plainLabel.value) else attribs;
    }

    /** `edge[attr] = val`. */
    method SetItem(attr: string, val: string)
      modifies this
      ensures attribs == Put(old(attribs), attr, val)
    {
      attribs := Put(attribs, attr, val);
    }

    function Line(): string
      reads this, start, end
    {
      EdgeLine(start.id, end.id, WithPorts(attribs, start.port, end.port))
    }
  }

  /** The lines of the first n nodes. */
  function NodeLines(ns: seq<DotGraphNode>, n: nat): (r: seq<string>)
    requires n <= |ns|
    reads ns
    ensures |r| == n
  {
    if n == 0 then [] else NodeLines(ns, n - 1) + [ns[n - 1].Line()]
  }

  /** The objects an edge line depends on: the edges and their end nodes. */
  function EdgeFrame(es: seq<DotGraphEdge>): set<object> {
    (set e | e in es :: e as object) + (set e | e in es :: e.start as object) +
    (set e | e in es :: e.end as object)
  }

  /** The lines of the first n edges. */
  function EdgeLines(es: seq<DotGraphEdge>, n: nat): (r: seq<string>)
    requires n <= |es|
    reads EdgeFrame(es)
    ensures |r| == n
  {
    if n == 0 then [] else
      var e := es[n - 1];
      assert e in es;
      EdgeLines(es, n - 1) + [e.Line()]
  }

  /** The lines of `DotGraph.to_dotfile`, before they are joined with newlines. */
  function DotLines(uid: string, nodeDefaults: Attribs, edgeDefaults: Attribs, body: string,
                    nodeLines: seq<string>, edgeLines: seq<string>): seq<string>
  {
    ["digraph " + uid + " {",
     "node [" + Join(Quoted(nodeDefaults), ",") + "]",
     "edge [" + Join(Quoted(edgeDefaults), ",") + "]"] +
    (if body != "" then [body] else []) +
    ["/* Nodes */"] + nodeLines + ["/* Edges */"] + edgeLines + ["}"]
  }

  /** Where each part of the graph lands in the dot file. */
  lemma DotLinesLayout(uid: string, nd: Attribs, ed: Attribs, body: string,
                       nodeLines: seq<string>, edgeLines: seq<string>)
    ensures var ls := DotLines(uid, nd, ed, body, nodeLines, edgeLines);
            var b := if body != "" then 1 else 0;
            && |ls| == 6 + b + |nodeLines| + |edgeLines|
            && ls[0] == "digraph " + uid + " {"
            && ls[1] == "node [" + Join(Quoted(nd), ",") + "]"
            && ls[2] == "edge [" + Join(Quoted(ed), ",") + "]"
            && (body != "" ==> ls[3] == body)
            && ls[3 + b] == "/* Nodes */"
            && (forall i :: 0 <= i < |nodeLines| ==> ls[4 + b + i] == nodeLines[i])
            && ls[4 + b + |nodeLines|] == "/* Edges */"
            && (forall i :: 0 <= i < |edgeLines| ==> ls[5 + b + |nodeLines| + i] == edgeLines[i])
            && ls[|ls| - 1] == "}"
  {
  }

  // ---------------------------------------------------------------- linking

  predicate IsNameChar(c: char) { IsWordChar(c) || c == '.' }

  /** `<name>` with name in `[\w.]+`. */
  predicate IsPlaceholder(h: string) {
    |h| >= 3 && h[0] == '<' && h[|h| - 1] == '>' &&
    forall i :: 1 <= i < |h| - 1 ==> IsNameChar(h[i])
  }

  /** `re.match(r'^<([\w\.]+)>$', h).group(1)`; `$` also matches just before
      a final newline. */
  function RefTarget(h: string): (r: Option<string>)
    ensures r.Some? ==> r.value != [] && (forall i :: 0 <= i < |r.value| ==> IsNameChar(r.value[i]))
    ensures r.Some? ==> h == "<" + r.value + ">" || h == "<" + r.value + ">\n"
  {
    if IsPlaceholder(h) then Some(h[1..|h| - 1])
    else if |h| >= 1 && h[|h| - 1] == '\n' && IsPlaceholder(h[..|h| - 1]) then Some(h[1..|h| - 2])
    else None
  }

  lemma PlaceholderTarget(name: string)
    requires name != [] && forall i :: 0 <= i < |name| ==> IsNameChar(name[i])
    ensures RefTarget("<" + name + ">") == Some(name)
  {
    var h := "<" + name + ">";
    assert forall i :: 1 <= i < |h| - 1 ==> h[i] == name[i - 1];
    assert h[1..|h| - 1] == name;
  }

  /** `DotGraph._link_href`: a placeholder `<name>` becomes the linker's URL
      for the name, or the attribute is deleted when there is none. */
  function LinkHref(a: Attribs, urlFor: string -> Option<string>): Attribs {
    match Lookup(a, "href")
    case None => a
    case Some(h) =>
      match RefTarget(h)
      case None => a
      case Some(name) =>
        var url := urlFor(name);
        if url.Some? && url.value != "" then Put(a, "href", url.value) else Remove(a, "href")
  }

  /** The value of every attribute after `_link_href`: only `href` changes,
      and only when it is a placeholder. */
  lemma LinkHrefLookup(a: Attribs, urlFor: string -> Option<string>, k: string)
    ensures Lookup(LinkHref(a, urlFor), k) ==
              if k != "href" then Lookup(a, k)
              else match Lookup(a, "href")
                case None => None
                case Some(h) =>
                  match RefTarget(h)
                  case None => Some(h)
                  case Some(name) =>
                    if urlFor(name).Some? && urlFor(name).value != "" then urlFor(name) else None
  {
    match Lookup(a, "href")
    case None =>
    case Some(h) =>
      match RefTarget(h)
      case None =>
      case Some(name) =>
        var url := urlFor(name);
        if url.Some? && url.value != "" {
          PutLookup(a, "href", url.value, k);
        } else {
          RemoveLookup(a, "href", k);
        }
  }

  lemma LinkHrefValid(a: Attribs, urlFor: string -> Option<string>)
    requires Attrs.Valid(a)
    ensures Attrs.Valid(LinkHref(a, urlFor))
  {
    match Lookup(a, "href")
    case None =>
    case Some(h) =>
      match RefTarget(h)
      case None =>
      case Some(name) =>
        var url := urlFor(name);
        if url.Some? && url.value != "" {
          PutValid(a, "href", url.value);
        } else {
          RemoveValid(a, "href");
        }
  }

  /** When no URL the linker gives is itself a placeholder, linking a second
      time changes nothing (so `link` treating the nodes twice is harmless). */
  lemma LinkHrefIdempotent(a: Attribs, urlFor: string -> Option<string>)
    requires forall n :: urlFor(n).Some? ==> RefTarget(urlFor(n).value).None?
    ensures LinkHref(LinkHref(a, urlFor), urlFor) == LinkHref(a, urlFor)
  {
    var once := LinkHref(a, urlFor);
    LinkHrefLookup(a, urlFor, "href");
    match Lookup(once, "href")
    case None =>
    case Some(h2) =>
      match Lookup(a, "href")
      case None =>
      case Some(h) =>
        match RefTarget(h)
        case None =>
        case Some(name) =>
          assert RefTarget(h2).None?;
  }

  // The body substitution `re.sub('href\s*=\s*['"]?<([\w\.]+)>['"]?\s*(,?)', ...)`.

  function SkipSpaces(s: string, i: nat): (j: nat)
    requires i <= |s|
    ensures i <= j <= |s|
    decreases |s| - i
  {
    if i < |s| && IsSpace(s[i]) then SkipSpaces(s, i + 1) else i
  }

  function SkipNameChars(s: string, i: nat): (j: nat)
    requires i <= |s|
    ensures i <= j <= |s|
    decreases |s| - i
  {
    if i < |s| && IsNameChar(s[i]) then SkipNameChars(s, i + 1) else i
  }

  function SkipQuote(s: string, i: nat): (j: nat)
    requires i <= |s|
    ensures i <= j <= |s|
  {
    if i < |s| && (s[i] == '\'' || s[i] == '"') then i + 1 else i
  }

  /** A match of the body pattern: where it ends, group 1 (the name) and group 2 (the comma). */
  datatype RefMatch = RefMatch(end: nat, name: string, comma: string)

  /** The (deterministic, greedy) match of the body pattern starting at i. */
  function MatchRefAt(s: string, i: nat): (m: Option<RefMatch>)
    requires i <= |s|
    ensures m.Some? ==> i < m.value.end <= |s|
  {
    if !(i + 4 <= |s| && s[i..i + 4] == "href") then None
    else
      var j := SkipSpaces(s, i + 4);
      if !(j < |s| && s[j] == '=') then None
      else
        var q := SkipQuote(s, SkipSpaces(s, j + 1));
        if !(q < |s| && s[q] == '<') then None
        else
          var n := SkipNameChars(s, q + 1);
          if !(q + 1 < n < |s| && s[n] == '>') then None
          else
            var t := SkipSpaces(s, SkipQuote(s, n + 1));
            if t < |s| && s[t] == ',' then Some(RefMatch(t + 1, s[q + 1..n], ","))
            else Some(RefMatch(t, s[q + 1..n], ""))
  }

  /** `subfunc`: the resolved reference, or nothing at all. */
  function Substitution(m: RefMatch, urlFor: string -> Option<string>): string {
    var url := urlFor(m.name);
    if url.Some? && url.value != "" then "href=\"" + url.value + "\"" + m.comma else ""
  }

  /** Leftmost, non-overlapping substitution from position i on. */
  function LinkBodyFrom(s: string, i: nat, urlFor: string -> Option<string>): string
    requires i <= |s|
    decreases |s| - i
  {
    if i == |s| then ""
    else
      match MatchRefAt(s, i)
      case Some(m) => Substitution(m, urlFor) + LinkBodyFrom(s, m.end, urlFor)
      case None => [s[i]] + LinkBodyFrom(s, i + 1, urlFor)
  }

  function LinkBody(s: string, urlFor: string -> Option<string>): string {
    LinkBodyFrom(s, 0, urlFor)
  }

  /** A body in which the pattern matches nowhere is left as it is. */
  lemma {:induction false} LinkBodyNoMatch(s: string, i: nat, urlFor: string -> Option<string>)
    requires i <= |s|
    requires forall k :: i <= k < |s| ==> MatchRefAt(s, k).None?
    ensures LinkBodyFrom(s, i, urlFor) == s[i..]
    decreases |s| - i
  {
    if i < |s| {
      LinkBodyNoMatch(s, i + 1, urlFor);
      assert s[i..] == [s[i]] + s[i + 1..];
    }
  }

  lemma {:induction false} SkipNameRun(s: string, i: nat, n: nat)
    requires i + n <= |s|
    requires forall k :: i <= k < i + n ==> IsNameChar(s[k])
    requires i + n == |s| || !IsNameChar(s[i + n])
    ensures SkipNameChars(s, i) == i + n
    decreases n
  {
    if n > 0 {
      SkipNameRun(s, i + 1, n - 1);
    }
  }

  /** `href="<name>"` alone becomes `href="<url>"`, or disappears when the
      linker has no URL for the name. */
  lemma LinkBodySingleRef(name: string, urlFor: string -> Option<string>)
    requires name != [] && forall i :: 0 <= i < |name| ==> IsNameChar(name[i])
    ensures var s := "href=\"<" + name + ">\"";
            var url := urlFor(name);
            LinkBody(s, urlFor) == if url.Some? && url.value != "" then "href=\"" + url.value + "\"" else ""
  {
    var s := "href=\"<" + name + ">\"";
    assert s[0..4] == "href";
    assert SkipSpaces(s, 4) == 4;
    assert SkipSpaces(s, 5) == 5;
    assert SkipQuote(s, 5) == 6;
    SkipNameRun(s, 7, |name|);
    var n := 7 + |name|;
    assert s[n] == '>';
    assert SkipQuote(s, n + 1) == |s|;
    assert s[7..n] == name;
    assert MatchRefAt(s, 0) == Some(RefMatch(|s|, name, ""));
    assert LinkBodyFrom(s, |s|, urlFor) == "";
  }

  class DotGraph {
    var title: string
    var caption: Option<string>
    var nodes: seq<DotGraphNode>
    var edges: seq<DotGraphEdge>
    var body: string
    var nodeDefaults: Attribs
    var edgeDefaults: Attribs
    const uid: string

    /** Each node object occurs once in the node list. */
    ghost predicate Valid()
      reads this
    {
      forall i, j :: 0 <= i < j < |nodes| ==> nodes[i] != nodes[j]
    }

    /** `DotGraph(title, body, node_defaults, edge_defaults, caption)`; an
        absent defaults dictionary is the empty one. */
    constructor (title: string, body: string, nodeDefaults: Attribs, edgeDefaults: Attribs,
                 caption: Option<string>, registry: UidRegistry)
      modifies registry
      ensures Valid()
      ensures this.title == EncodeTitle(title) && this.caption == caption && this.body == body
      ensures this.nodeDefaults == nodeDefaults && this.edgeDefaults == edgeDefaults
      ensures nodes == [] && edges == []
      ensures uid !in old(registry.uids) && registry.uids == old(registry.uids) + {uid}
      ensures IsUniquified(uid, UidBase(title), '_', old(registry.uids))
    {
      var u := registry.Register(title);
      this.uid := u;
      this.title := EncodeTitle(title);
      this.caption := caption;
      this.body := body;
      this.nodeDefaults := nodeDefaults;
      this.edgeDefaults := edgeDefaults;
      this.nodes := [];
      this.edges := [];
    }

    /** `DotGraph.to_dotfile` (the text before UTF-8 encoding). */
    method ToDotfile() returns (s: string)
      ensures s == Join(DotLines(uid, nodeDefaults, edgeDefaults, body, NodeLines(nodes, |nodes|), EdgeLines(edges, |edges|)), "\n")
    {
      var lines := ["digraph " + uid + " {",
                    "node [" + Join(Quoted(nodeDefaults), ",") + "]",
                    "edge [" + Join(Quoted(edgeDefaults), ",") + "]"];
      ghost var header := lines;
      if body != "" {
        lines := lines + [body];
      }
      assert lines == header + (if body != "" then [body] else []);
      lines := lines + ["/* Nodes */"];
      lines := AppendNodeLines(lines);
      lines := lines + ["/* Edges */"];
      lines := AppendEdgeLines(lines);
      lines := lines + ["}"];
      s := Join(lines, "\n");
    }

    /** `for node in self.nodes: lines.append(node.to_dotfile())`. */
    method AppendNodeLines(lines: seq<string>) returns (r: seq<string>)
      ensures r == lines + NodeLines(nodes, |nodes|)
    {
      r := lines;
      for i := 0 to |nodes|
        invariant r == lines + NodeLines(nodes, i)
      {
        AppendAssoc(lines, NodeLines(nodes, i), [nodes[i].Line()]);
        r := r + [nodes[i].Line()];
      }
    }

    /** `for edge in self.edges: lines.append(edge.to_dotfile())`. */
    method AppendEdgeLines(lines: seq<string>) returns (r: seq<string>)
      ensures r == lines + EdgeLines(edges, |edges|)
    {
      r := lines;
      for i := 0 to |edges|
        invariant r == lines + EdgeLines(edges, i)
      {
        AppendAssoc(lines, EdgeLines(edges, i), [edges[i].Line()]);
        r := r + [edges[i].Line()];
      }
    }

    /** `DotGraph.link` as written: the node defaults are linked, then the
        node loop reads `node.attribs`, an attribute nodes do not have (they
        keep their attributes in `_attribs`), and raises an AttributeError.
        Only a graph without nodes goes on: the edge defaults are linked,
        the second loop (over `self.nodes` again) does nothing, and the body
        is linked. */
    method Link(urlFor: string -> Option<string>) returns (o: Outcome)
      modifies this`nodeDefaults, this`edgeDefaults, this`body
      ensures nodeDefaults == LinkHref(old(nodeDefaults), urlFor)
      ensures o.Fail? <==> nodes != []
      ensures o.Fail? ==> o.error == AttributeError && edgeDefaults == old(edgeDefaults) && body == old(body)
      ensures o.Pass? ==> edgeDefaults == LinkHref(old(edgeDefaults), urlFor) && body == LinkBody(old(body), urlFor)
    {
      nodeDefaults := LinkHref(nodeDefaults, urlFor);
      if nodes != [] {
        return Fail(AttributeError);
      }
      edgeDefaults := LinkHref(edgeDefaults, urlFor);
      body := LinkBody(body, urlFor);
      o := Pass;
    }

    /** `link` as evidently intended: nodes and edges are read through
        `_attribs`, and the second loop walks the edges. */
    method LinkCorrected(urlFor: string -> Option<string>)
      requires Valid()
      requires forall i, j :: 0 <= i < j < |edges| ==> edges[i] != edges[j]
      modifies this, (set i | 0 <= i < |nodes| :: nodes[i])`attribs, (set i | 0 <= i < |edges| :: edges[i])`attribs
      ensures Valid()
      ensures nodes == old(nodes) && edges == old(edges)
      ensures title == old(title) && caption == old(caption)
      ensures nodeDefaults == LinkHref(old(nodeDefaults), urlFor)
      ensures edgeDefaults == LinkHref(old(edgeDefaults), urlFor)
      ensures forall i :: 0 <= i < |nodes| ==> nodes[i].attribs == LinkHref(old(nodes[i].attribs), urlFor)
      ensures forall i :: 0 <= i < |edges| ==> edges[i].attribs == LinkHref(old(edges[i].attribs), urlFor)
      ensures body == LinkBody(old(body), urlFor)
    {
      LinkAttribs(a => LinkHref(a, urlFor));
      body := LinkBody(body, urlFor);
    }

    /** The attribute steps of the corrected `link`, with `_link_href` as f:
        node defaults, nodes, edge defaults, edges. */
    method LinkAttribs(f: Attribs -> Attribs)
      requires Valid()
      requires forall i, j :: 0 <= i < j < |edges| ==> edges[i] != edges[j]
      modifies this`nodeDefaults, this`edgeDefaults
      modifies (set i | 0 <= i < |nodes| :: nodes[i])`attribs, (set i | 0 <= i < |edges| :: edges[i])`attribs
      ensures nodeDefaults == f(old(nodeDefaults)) && edgeDefaults == f(old(edgeDefaults))
      ensures forall i :: 0 <= i < |nodes| ==> nodes[i].attribs == f(old(nodes[i].attribs))
      ensures forall i :: 0 <= i < |edges| ==> edges[i].attribs == f(old(edges[i].attribs))
    {
      nodeDefaults := f(nodeDefaults);
      UpdateNodes(f);
      edgeDefaults := f(edgeDefaults);
      UpdateEdges(f);
    }

    /** `for edge in self.edges: f(edge.attribs)`. */
    method UpdateEdges(f: Attribs -> Attribs)
      requires forall i, j :: 0 <= i < j < |edges| ==> edges[i] != edges[j]
      modifies (set i | 0 <= i < |edges| :: edges[i])`attribs
      ensures forall i :: 0 <= i < |edges| ==> edges[i].attribs == f(old(edges[i].attribs))
    {
      for i := 0 to |edges|
        invariant forall k :: 0 <= k < i ==> edges[k].attribs == f(old(edges[k].attribs))
        invariant forall k :: i <= k < |edges| ==> edges[k].attribs == old(edges[k].attribs)
      {
        edges[i].attribs := f(edges[i].attribs);
      }
    }

    /** `for node in self.nodes: f(node.attribs)`. */
    method UpdateNodes(f: Attribs -> Attribs)
      requires Valid()
      modifies (set i | 0 <= i < |nodes| :: nodes[i])`attribs
      ensures forall i :: 0 <= i < |nodes| ==> nodes[i].attribs == f(old(nodes[i].attribs))
    {
      for i := 0 to |nodes|
        invariant forall k :: 0 <= k < i ==> nodes[k].attribs == f(old(nodes[k].attribs))
        invariant forall k :: i <= k < |nodes| ==> nodes[k].attribs == old(nodes[k].attribs)
      {
        nodes[i].attribs := f(nodes[i].attribs);
      }
    }
  }

  /** What the failing `link` never does: a node or edge whose `href` is a
      placeholder `<name>` for a linkable name gets the name's URL. */
  lemma PlaceholderHrefRewritten(name: string, url: string, urlFor: string -> Option<string>)
    requires name != [] && forall i :: 0 <= i < |name| ==> IsNameChar(name[i])
    requires urlFor(name) == Some(url) && url != ""
    ensures var a: Attribs := [("href", "<" + name + ">")];
            Lookup(LinkHref(a, urlFor), "href") == Some(url)
  {
    PlaceholderTarget(name);
    var a: Attribs := [("href", "<" + name + ">")];
    LinkHrefLookup(a, urlFor, "href");
  }
}
