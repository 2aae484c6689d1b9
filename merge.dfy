/** Merging the documentation found by introspection with the documentation
    found by parsing (`merge_attribute` and the registered attribute merge
    functions of docbuilder.py).  An api doc is an object whose attribute
    dictionary maps attribute names to values; an attribute that is not in
    the dictionary has the value UNKNOWN. */
module DocMerge {
  import opened Wrappers

  /** The attribute values the merge rules look at.  `Doc` refers to another
      api doc; `Defaults` is a list of default value docs that may hold None. */
  datatype Val =
    | NoneVal
    | Doc(id: nat)
    | Text(s: string)
    | Vars(vars: map<string, nat>)
    | Docs(docs: seq<nat>)
    | Defaults(defaults: seq<Option<nat>>)
    | Args(names: seq<string>)
    | Other(tag: nat)

  /** An attribute that is UNKNOWN, or known to hold a value (possibly None). */
  datatype Attr = Unknown | Known(val: Val)

  function Get(attributes: map<string, Val>, attrib: string): Attr {
    if attrib in attributes then Known(attributes[attrib]) else Unknown
  }

  /** `setattr`: setting an attribute to UNKNOWN drops it from the dictionary. */
  function Set(attributes: map<string, Val>, attrib: string, v: Attr): (r: map<string, Val>)
    ensures Get(r, attrib) == v
    ensures forall a :: a != attrib ==> Get(r, a) == Get(attributes, a)
  {
    if v.Known? then attributes[attrib := v.val] else attributes - {attrib}
  }

  // ------------------------------------------------------------ precedence

  datatype Precedence = Introspect | Parse

  /** The value from the side the precedence names. */
  function Side<T>(p: Precedence, introspected: T, parsed: T): T {
    if p == Introspect then introspected else parsed
  }

  /** `MERGE_PRECEDENCE`. */
  const MergePrecedence: map<string, string> := map[
    "repr" := "parse",
    "canonical_name" := "introspect",
    "is_imported" := "parse",
    "is_alias" := "parse",
    "docformat" := "parse",
    "is_package" := "parse",
    "sort_spec" := "parse",
    "subpackages" := "introspect",
    "filename" := "parse"]

  /** `DEFAULT_MERGE_PRECEDENCE`. */
  const DefaultMergePrecedence: string := "introspect"

  /** The attributes for which parsing takes precedence. */
  const ParsedFirst: set<string> := {"repr", "is_imported", "is_alias", "docformat", "is_package", "sort_spec", "filename"}

  /** The precedence of an attribute, looked up in `table` with `default` as
      the fallback; any word other than 'parse' or 'introspect' is a
      ValueError that quotes the word, as `%r` does. */
  function PrecedenceFor(table: map<string, string>, default: string, attrib: string): (r: Result<Precedence>)
    ensures r.Success? <==> (if attrib in table then table[attrib] else default) in {"parse", "introspect"}
    ensures r == Success(Parse) <==> (if attrib in table then table[attrib] else default) == "parse"
    ensures r.Failure? ==> r.error == ValueError("Bad precedence value '" + (if attrib in table then table[attrib] else default) + "'")
  {
    var word := if attrib in table then table[attrib] else default;
    if word == "parse" then Success(Parse)
    else if word == "introspect" then Success(Introspect)
    else Failure(ValueError("Bad precedence value '" + word + "'"))
  }

  /** With the built-in table every attribute has a valid precedence, and
      parsing wins exactly for the attributes the table marks 'parse'. */
  lemma BuiltinPrecedence(attrib: string)
    ensures PrecedenceFor(MergePrecedence, DefaultMergePrecedence, attrib) ==
            Success(if attrib in ParsedFirst then Parse else Introspect)
  {
    if attrib in MergePrecedence {
      assert MergePrecedence[attrib] == "parse" <==> attrib in ParsedFirst;
    }
  }

  // ------------------------------------------------- the merge functions

  /** What the registered merge functions need from the rest of the merger:
      `merge_docs` on two docs (whose class checks and cycle check are not
      part of this model) and the canonical name of a doc, None when it is
      None or UNKNOWN. */
  datatype MergeContext = MergeContext(mergeDocs: (nat, nat) -> nat, nameOf: nat -> Option<seq<string>>)

  /** `merge_value`, also registered for `overrides`, `fget`, `fset` and
      `fdel`.  Two known values other than None must be docs, or
      `merge_docs` fails its `isinstance` assertion. */
  function MergeValue(v1: Attr, v2: Attr, p: Precedence, ctx: MergeContext): (r: Result<Attr>)
    ensures r.Success? && r.value != v1 && r.value != v2 ==>
              v1.Known? && v2.Known? && v1.val.Doc? && v2.val.Doc? &&
              r.value == Known(Doc(ctx.mergeDocs(v1.val.id, v2.val.id)))
    ensures r.Failure? <==> v1.Known? && v2.Known? && v1.val != NoneVal && v2.val != NoneVal &&
                            !(v1.val.Doc? && v2.val.Doc?)
    ensures r.Failure? ==> r.error == AssertionError
  {
    if v1 == Known(NoneVal) && v2 == Known(NoneVal) then Success(Known(NoneVal))
    else if v1 == Known(NoneVal) || v2 == Known(NoneVal) then Success(Side(p, v1, v2))
    else if v1.Unknown? then Success(v2)
    else if v2.Unknown? then Success(Side(p, v1, v2))
    else if v1.val.Doc? && v2.val.Doc? then Success(Known(Doc(ctx.mergeDocs(v1.val.id, v2.val.id))))
    else Failure(AssertionError)
  }

  /** Against a value other than None, an UNKNOWN first value yields the
      second; an UNKNOWN second value yields the first only under
      introspection precedence, and stays UNKNOWN under parse precedence. */
  lemma MergeValueUnknownSide(v: Attr, p: Precedence, ctx: MergeContext)
    ensures v != Known(NoneVal) ==> MergeValue(Unknown, v, p, ctx) == Success(v)
    ensures v != Known(NoneVal) ==> MergeValue(v, Unknown, p, ctx) == Success(Side(p, v, Unknown))
  {
  }

  /** `merge_docstring`: the parsed docstring, unless introspection has
      precedence and the introspected docstring is neither None nor UNKNOWN. */
  function MergeDocstring(d1: Attr, d2: Attr, p: Precedence): (r: Attr)
    ensures r == d1 || r == d2
    ensures r == d1 <==> (d1 == d2 || (p == Introspect && d1.Known? && d1.val != NoneVal))
  {
    if d1.Known? && d1.val != NoneVal && p == Introspect then d1 else d2
  }

  /** `merge_imported_from`: only None can have been introspected. */
  function MergeImportedFrom(v1: Val): (r: Result<Attr>)
    ensures r.Success? <==> v1 == NoneVal
    ensures r.Success? ==> r.value == Known(NoneVal)
  {
    if v1 == NoneVal then Success(Known(NoneVal)) else Failure(AssertionError)
  }

  /** The variables both dictionaries hold, each merged. */
  ghost function SharedMerged(vars1: map<string, nat>, vars2: map<string, nat>, ctx: MergeContext): map<string, nat> {
    map n | n in vars2 :: if n in vars1 then ctx.mergeDocs(vars1[n], vars2[n]) else vars2[n]
  }

  /** What `merge_variables` returns: every name of either dictionary, a
      shared name bound to the merged variable, any other name to its own. */
  ghost function MergedVariables(vars1: map<string, nat>, vars2: map<string, nat>, ctx: MergeContext): (r: map<string, nat>)
    ensures r.Keys == vars1.Keys + vars2.Keys
    ensures forall n :: n in vars1 && n !in vars2 ==> r[n] == vars1[n]
    ensures forall n :: n in vars2 ==> r[n] == SharedMerged(vars1, vars2, ctx)[n]
  {
    map n | n in vars1.Keys + vars2.Keys ::
      if n in vars1 && n in vars2 then ctx.mergeDocs(vars1[n], vars2[n])
      else if n in vars1 then vars1[n] else vars2[n]
  }

  /** The first loop of `merge_variables`: each name both dictionaries hold
      is bound to the merged variable in both. */
  method MergeShared(vars1: map<string, nat>, vars2: map<string, nat>, ctx: MergeContext)
    returns (vars1': map<string, nat>, vars2': map<string, nat>)
    ensures vars1'.Keys == vars1.Keys
    ensures forall n :: n in vars1 ==> vars1'[n] == if n in vars2 then ctx.mergeDocs(vars1[n], vars2[n]) else vars1[n]
    ensures vars2' == SharedMerged(vars1, vars2, ctx)
  {
    vars1', vars2' := vars1, vars2;
    var todo := vars1.Keys;
    while todo != {}
      invariant todo <= vars1.Keys
      invariant vars1'.Keys == vars1.Keys && vars2'.Keys == vars2.Keys
      invariant forall n :: n in vars1 ==>
                  vars1'[n] == if n in todo || n !in vars2 then vars1[n] else ctx.mergeDocs(vars1[n], vars2[n])
      invariant forall n :: n in vars2 ==>
                  vars2'[n] == if n in todo || n !in vars1 then vars2[n] else ctx.mergeDocs(vars1[n], vars2[n])
      decreases todo
    {
      var n :| n in todo;
      if n in vars2 {
        var v := ctx.mergeDocs(vars1[n], vars2[n]);
        vars1' := vars1'[n := v];
        vars2' := vars2'[n := v];
      }
      todo := todo - {n};
    }
  }

  /** The second loop of `merge_variables`: `vars1.setdefault(name, var)`
      for each variable of `vars2`. */
  method CopyMissing(vars1: map<string, nat>, vars2: map<string, nat>) returns (r: map<string, nat>)
    ensures r.Keys == vars1.Keys + vars2.Keys
    ensures forall n :: n in r ==> r[n] == if n in vars1 then vars1[n] else vars2[n]
  {
    r := vars1;
    var rest := vars2.Keys;
    while rest != {}
      invariant rest <= vars2.Keys
      invariant r.Keys == vars1.Keys + (vars2.Keys - rest)
      invariant forall n :: n in r ==> r[n] == if n in vars1 then vars1[n] else vars2[n]
      decreases rest
    {
      var n :| n in rest;
      if n !in r {
        r := r[n := vars2[n]];
      }
      rest := rest - {n};
    }
  }

  /** `merge_variables`: merges the shared variables into both dictionaries,
      then copies the names only `vars2` has into `vars1`; `vars2'` is the
      second dictionary afterwards. */
  method MergeVariables(vars1: map<string, nat>, vars2: map<string, nat>, ctx: MergeContext)
    returns (merged: map<string, nat>, vars2': map<string, nat>)
    ensures merged == MergedVariables(vars1, vars2, ctx)
    ensures vars2' == SharedMerged(vars1, vars2, ctx)
  {
    var vars1';
    vars1', vars2' := MergeShared(vars1, vars2, ctx);
    merged := CopyMissing(vars1', vars2');
  }

  /** Two canonical names that are both known and differ. */
  predicate NamesDisagree(n1: Option<seq<string>>, n2: Option<seq<string>>) {
    n1.Some? && n2.Some? && n1.value != n2.value
  }

  /** What `merge_bases` returns: the precedence side's list when the
      lengths differ or two bases' known names disagree, otherwise the
      pairwise merged bases. */
  ghost function BasesMerged(bases1: seq<nat>, bases2: seq<nat>, p: Precedence, ctx: MergeContext): seq<nat> {
    if |bases1| != |bases2| ||
       exists i :: 0 <= i < |bases1| && NamesDisagree(ctx.nameOf(bases1[i]), ctx.nameOf(bases2[i]))
    then Side(p, bases1, bases2)
    else seq(|bases1|, i requires 0 <= i < |bases1| => ctx.mergeDocs(bases1[i], bases2[i]))
  }

  method MergeBases(bases1: seq<nat>, bases2: seq<nat>, p: Precedence, ctx: MergeContext) returns (r: seq<nat>)
    ensures r == BasesMerged(bases1, bases2, p, ctx)
  {
    if |bases1| != |bases2| {
      return Side(p, bases1, bases2);
    }
    for i := 0 to |bases1|
      invariant forall k :: 0 <= k < i ==> !NamesDisagree(ctx.nameOf(bases1[k]), ctx.nameOf(bases2[k]))
    {
      if NamesDisagree(ctx.nameOf(bases1[i]), ctx.nameOf(bases2[i])) {
        return Side(p, bases1, bases2);
      }
    }
    r := [];
    for i := 0 to |bases1|
      invariant |r| == i
      invariant forall k :: 0 <= k < i ==> r[k] == ctx.mergeDocs(bases1[k], bases2[k])
    {
      r := r + [ctx.mergeDocs(bases1[i], bases2[i])];
    }
  }

  /** One merged default: merged when both are docs, else the precedence
      side's entry. */
  function DefaultMerged(d1: Option<nat>, d2: Option<nat>, p: Precedence, ctx: MergeContext): Option<nat> {
    if d1.Some? && d2.Some? then Some(ctx.mergeDocs(d1.value, d2.value)) else Side(p, d1, d2)
  }

  /** What `merge_posarg_defaults` returns: the precedence side's list on a
      length mismatch, otherwise a list of the same length merged position by
      position. */
  function DefaultsMerged(defaults1: seq<Option<nat>>, defaults2: seq<Option<nat>>, p: Precedence, ctx: MergeContext)
    : (r: seq<Option<nat>>)
    ensures |defaults1| != |defaults2| ==> r == Side(p, defaults1, defaults2)
    ensures |defaults1| == |defaults2| ==>
              |r| == |defaults1| &&
              forall i :: 0 <= i < |r| ==> r[i] == DefaultMerged(defaults1[i], defaults2[i], p, ctx)
  {
    if |defaults1| != |defaults2| then Side(p, defaults1, defaults2)
    else seq(|defaults1|, i requires 0 <= i < |defaults1| => DefaultMerged(defaults1[i], defaults2[i], p, ctx))
  }

  /** `merge_posarg_defaults`. */
  method MergePosargDefaults(defaults1: seq<Option<nat>>, defaults2: seq<Option<nat>>, p: Precedence, ctx: MergeContext)
    returns (r: seq<Option<nat>>)
    ensures r == DefaultsMerged(defaults1, defaults2, p, ctx)
  {
    if |defaults1| != |defaults2| {
      return Side(p, defaults1, defaults2);
    }
    r := [];
    for i := 0 to |defaults1|
      invariant |r| == i
      invariant forall k :: 0 <= k < i ==> r[k] == DefaultMerged(defaults1[k], defaults2[k], p, ctx)
    {
      r := r + [DefaultMerged(defaults1[i], defaults2[i], p, ctx)];
    }
  }

  // ------------------------------------------------------ merge_attribute

  /** `_attribute_mergefunc_registry`. */
  const Registered: set<string> :=
    {"variables", "value", "overrides", "fget", "fset", "fdel", "imported_from", "bases", "posarg_defaults", "docstring"}

  /** The merge functions registered for `value` and the references like it. */
  const ValueLike: set<string> := {"value", "overrides", "fget", "fset", "fdel"}

  /** What the registered merge function for `attrib` returns on two known
      values.  A value of the wrong shape for its attribute is an ill-typed
      doc, outside the model: it is marked with TypeError here, and which
      exception Python would raise for it (an AttributeError from `.items()`
      in `merge_variables`, for one) is not modelled. */
  ghost function HandlerSpec(attrib: string, iv: Val, pv: Val, p: Precedence, ctx: MergeContext): Result<Attr>
    requires attrib in Registered
  {
    if attrib == "variables" then
      if iv.Vars? && pv.Vars? then Success(Known(Vars(MergedVariables(iv.vars, pv.vars, ctx)))) else Failure(TypeError)
    else if attrib in ValueLike then MergeValue(Known(iv), Known(pv), p, ctx)
    else if attrib == "imported_from" then MergeImportedFrom(iv)
    else if attrib == "bases" then
      if iv.Docs? && pv.Docs? then Success(Known(Docs(BasesMerged(iv.docs, pv.docs, p, ctx)))) else Failure(TypeError)
    else if attrib == "posarg_defaults" then
      if iv.Defaults? && pv.Defaults? then Success(Known(Defaults(DefaultsMerged(iv.defaults, pv.defaults, p, ctx))))
      else Failure(TypeError)
    else Success(MergeDocstring(Known(iv), Known(pv), p))
  }

  /** The value both docs hold for `attrib` after `merge_attribute`. */
  ghost function MergedAttribute(attrib: string, iv: Attr, pv: Attr, table: map<string, string>, ctx: MergeContext): Result<Attr> {
    var p :- PrecedenceFor(table, DefaultMergePrecedence, attrib);
    if iv.Unknown? then Success(pv)
    else if pv.Unknown? then Success(iv)
    else if attrib in Registered then HandlerSpec(attrib, iv.val, pv.val, p, ctx)
    else Success(Side(p, iv, pv))
  }

  /** A merge never loses a known value: when it succeeds and either side was
      known, the merged attribute is known, and with nothing known nothing
      becomes known. */
  lemma MergedAttributeKnown(attrib: string, iv: Attr, pv: Attr, table: map<string, string>, ctx: MergeContext)
    requires MergedAttribute(attrib, iv, pv, table, ctx).Success?
    ensures MergedAttribute(attrib, iv, pv, table, ctx).value.Known? <==> iv.Known? || pv.Known?
  {
  }

  /** With the built-in table only a registered merge function can fail. */
  lemma BuiltinTableNeverRejects(attrib: string, iv: Attr, pv: Attr, ctx: MergeContext)
    ensures MergedAttribute(attrib, iv, pv, MergePrecedence, ctx).Failure? ==>
              attrib in Registered && iv.Known? && pv.Known?
  {
    BuiltinPrecedence(attrib);
  }

  /** An api doc: its attribute dictionary. */
  class ApiDoc {
    var attributes: map<string, Val>

    constructor(attributes: map<string, Val>)
      ensures this.attributes == attributes
    {
      this.attributes := attributes;
    }
  }

  /** The registered merge function for `attrib`, called on two known
      values. */
  method CallHandler(attrib: string, iv: Val, pv: Val, p: Precedence, ctx: MergeContext) returns (r: Result<Attr>)
    requires attrib in Registered
    ensures r == HandlerSpec(attrib, iv, pv, p, ctx)
  {
    if attrib == "variables" {
      if iv.Vars? && pv.Vars? {
        var merged, _ := MergeVariables(iv.vars, pv.vars, ctx);
        r := Success(Known(Vars(merged)));
      } else {
        r := Failure(TypeError);
      }
    } else if attrib in ValueLike {
      r := MergeValue(Known(iv), Known(pv), p, ctx);
    } else if attrib == "imported_from" {
      r := MergeImportedFrom(iv);
    } else if attrib == "bases" {
      if iv.Docs? && pv.Docs? {
        var merged := MergeBases(iv.docs, pv.docs, p, ctx);
        r := Success(Known(Docs(merged)));
      } else {
        r := Failure(TypeError);
      }
    } else if attrib == "posarg_defaults" {
      if iv.Defaults? && pv.Defaults? {
        var merged := MergePosargDefaults(iv.defaults, pv.defaults, p, ctx);
        r := Success(Known(Defaults(merged)));
      } else {
        r := Failure(TypeError);
      }
    } else {
      r := Success(MergeDocstring(Known(iv), Known(pv), p));
    }
  }

  /** `merge_attribute`: on success both docs end with the same value for
      `attrib` and nothing else changes; on failure neither doc changes. */
  method MergeAttribute(attrib: string, introspected: ApiDoc, parsed: ApiDoc, table: map<string, string>, ctx: MergeContext)
    returns (o: Outcome)
    requires introspected != parsed
    modifies introspected, parsed
    ensures var m := MergedAttribute(attrib, old(Get(introspected.attributes, attrib)),
                                     old(Get(parsed.attributes, attrib)), table, ctx);
            if m.Failure? then
              o == Fail(m.error) &&
              introspected.attributes == old(introspected.attributes) && parsed.attributes == old(parsed.attributes)
            else
              o == Pass &&
              introspected.attributes == Set(old(introspected.attributes), attrib, m.value) &&
              parsed.attributes == Set(old(parsed.attributes), attrib, m.value)
  {
    var precedence := PrecedenceFor(table, DefaultMergePrecedence, attrib);
    if precedence.Failure? {
      return Fail(precedence.error);
    }
    var p := precedence.value;
    var iv, pv := Get(introspected.attributes, attrib), Get(parsed.attributes, attrib);
    if iv.Unknown? && pv.Known? {
      introspected.attributes := Set(introspected.attributes, attrib, pv);
      parsed.attributes := Set(parsed.attributes, attrib, pv);
    } else if iv.Known? && pv.Unknown? {
      parsed.attributes := Set(parsed.attributes, attrib, iv);
      introspected.attributes := Set(introspected.attributes, attrib, iv);
    } else if iv.Unknown? && pv.Unknown? {
      introspected.attributes := Set(introspected.attributes, attrib, Unknown);
      parsed.attributes := Set(parsed.attributes, attrib, Unknown);
    } else {
      var merged: Attr;
      if attrib in Registered {
        var h := CallHandler(attrib, iv.val, pv.val, p, ctx);
        if h.Failure? {
          return Fail(h.error);
        }
        merged := h.value;
      } else {
        merged := Side(p, iv, pv);
      }
      introspected.attributes := Set(introspected.attributes, attrib, merged);
      parsed.attributes := Set(parsed.attributes, attrib, merged);
    }
    o := Pass;
  }

  /** The only argument list `['...']` introspection reports for builtins. */
  const Ellipsis: Val := Args(["..."])

  /** `_merge_posargs_and_defaults`: when both argument lists are known, an
      introspected `['...']` takes the parsed list and defaults, and two
      other differing lists take those of the `posargs` precedence side;
      afterwards both docs agree on `posargs`. */
  method MergePosargsAndDefaults(introspected: ApiDoc, parsed: ApiDoc, table: map<string, string>)
    requires introspected != parsed
    modifies introspected, parsed
    ensures var ia, pa := old(Get(introspected.attributes, "posargs")), old(Get(parsed.attributes, "posargs"));
            var id, pd := old(Get(introspected.attributes, "posarg_defaults")), old(Get(parsed.attributes, "posarg_defaults"));
            var keepIntrospected := (if "posargs" in table then table["posargs"] else DefaultMergePrecedence) == "introspect";
            if ia.Unknown? || pa.Unknown? || ia == pa then
              introspected.attributes == old(introspected.attributes) && parsed.attributes == old(parsed.attributes)
            else if (ia == Known(Ellipsis) && pa != Known(Ellipsis)) || !keepIntrospected then
              introspected.attributes == Set(Set(old(introspected.attributes), "posargs", pa), "posarg_defaults", pd) &&
              parsed.attributes == old(parsed.attributes)
            else
              parsed.attributes == Set(Set(old(parsed.attributes), "posargs", ia), "posarg_defaults", id) &&
              introspected.attributes == old(introspected.attributes)
    ensures old(Get(introspected.attributes, "posargs")).Known? && old(Get(parsed.attributes, "posargs")).Known? ==>
              Get(introspected.attributes, "posargs") == Get(parsed.attributes, "posargs")
  {
    var ia, pa := Get(introspected.attributes, "posargs"), Get(parsed.attributes, "posargs");
    if ia.Unknown? || pa.Unknown? {
      return;
    }
    if ia == Known(Ellipsis) && pa != Known(Ellipsis) {
      introspected.attributes := Set(introspected.attributes, "posargs", pa);
      introspected.attributes := Set(introspected.attributes, "posarg_defaults", Get(parsed.attributes, "posarg_defaults"));
    } else if ia != pa {
      if (if "posargs" in table then table["posargs"] else DefaultMergePrecedence) == "introspect" {
        parsed.attributes := Set(parsed.attributes, "posargs", ia);
        parsed.attributes := Set(parsed.attributes, "posarg_defaults", Get(introspected.attributes, "posarg_defaults"));
      } else {
        introspected.attributes := Set(introspected.attributes, "posargs", pa);
        introspected.attributes := Set(introspected.attributes, "posarg_defaults", Get(parsed.attributes, "posarg_defaults"));
      }
    }
  }
}
