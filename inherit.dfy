/** Documentation inheritance (`inherit_docs` and `_inherit_info` in
    docbuilder.py).  Docs are numbered; a store object holds, for each
    class, its variable dictionary, and for each variable its container,
    the variable it overrides and its value.  A doc's documentation fields
    (`descr`, `summary`, ...) are a dictionary whose keys are the fields
    the doc's class has (`hasattr`). */
module Inheritance {
  import opened Wrappers
  import opened DocMerge

  /** `_INHERITED_ATTRIBS`. */
  const InheritedAttribs: seq<string> := [
    "descr", "summary", "metadata", "extra_docstring_fields",
    "type_descr", "arg_descrs", "arg_types", "return_descr",
    "return_type", "exception_descrs"]

  type Info = map<nat, map<string, Attr>>

  /** The field `a` of doc `d`, None when the doc has no such field. */
  function Slot(info: Info, d: nat, a: string): Option<Attr> {
    if d in info && a in info[d] then Some(info[d][a]) else None
  }

  /** A field that exists and is neither None nor UNKNOWN. */
  predicate Real(slot: Option<Attr>) {
    slot.Some? && slot.value.Known? && slot.value.val != NoneVal
  }

  /** The doc's docstring; UNKNOWN when it has none recorded. */
  function Docstring(info: Info, d: nat): Attr {
    if d in info && "docstring" in info[d] then info[d]["docstring"] else Unknown
  }

  /** One field of `_inherit_info`: the overriding variable `v` takes the
      overridden variable's value of the field when that is real; failing
      that, `v`'s value doc takes the overridden value doc's field when that
      is real and its own is not. */
  function InheritField(info: Info, v: nat, src: nat, val: Option<nat>, srcVal: Option<nat>, a: string): Info {
    if Slot(info, v, a).Some? && Real(Slot(info, src, a)) then
      info[v := info[v][a := Slot(info, src, a).value]]
    else if srcVal.Some? && val.Some? && Slot(info, val.value, a).Some? && Real(Slot(info, srcVal.value, a)) &&
            !Real(Slot(info, val.value, a)) then
      info[val.value := info[val.value][a := Slot(info, srcVal.value, a).value]]
    else info
  }

  /** The fields `attribs` inherited one after the other. */
  function InheritFields(info: Info, v: nat, src: nat, val: Option<nat>, srcVal: Option<nat>, attribs: seq<string>): Info
    decreases |attribs|
  {
    if attribs == [] then info
    else InheritField(InheritFields(info, v, src, val, srcVal, attribs[..|attribs| - 1]), v, src, val, srcVal, attribs[|attribs| - 1])
  }

  /** `after` has the same docs and fields as `before`, and every real field
      of `before` is still real. */
  ghost predicate InfoGrows(before: Info, after: Info) {
    after.Keys == before.Keys &&
    (forall d, a :: Slot(after, d, a).Some? <==> Slot(before, d, a).Some?) &&
    (forall d, a :: Real(Slot(before, d, a)) ==> Real(Slot(after, d, a)))
  }

  lemma InfoGrowsTrans(a: Info, b: Info, c: Info)
    requires InfoGrows(a, b) && InfoGrows(b, c)
    ensures InfoGrows(a, c)
  {
  }

  lemma InheritFieldGrows(info: Info, v: nat, src: nat, val: Option<nat>, srcVal: Option<nat>, a: string)
    ensures InfoGrows(info, InheritField(info, v, src, val, srcVal, a))
    ensures forall d :: d in info && d != v && (val.None? || d != val.value) ==>
              InheritField(info, v, src, val, srcVal, a)[d] == info[d]
  {
  }

  /** Inheriting documentation adds no field, takes none away, and never
      turns a real field into None or UNKNOWN; only `v` and its value doc
      change. */
  lemma {:induction false} InheritFieldsGrow(info: Info, v: nat, src: nat, val: Option<nat>, srcVal: Option<nat>, attribs: seq<string>)
    ensures InfoGrows(info, InheritFields(info, v, src, val, srcVal, attribs))
    ensures forall d :: d in info && d != v && (val.None? || d != val.value) ==>
              InheritFields(info, v, src, val, srcVal, attribs)[d] == info[d]
    decreases |attribs|
  {
    if attribs != [] {
      var before := InheritFields(info, v, src, val, srcVal, attribs[..|attribs| - 1]);
      InheritFieldsGrow(info, v, src, val, srcVal, attribs[..|attribs| - 1]);
      var after := InheritField(before, v, src, val, srcVal, attribs[|attribs| - 1]);
      InheritFieldGrows(before, v, src, val, srcVal, attribs[|attribs| - 1]);
      InfoGrowsTrans(info, before, after);
    }
  }

  lemma InheritedAttribsDistinct()
    ensures forall i, j :: 0 <= i < j < |InheritedAttribs| ==> InheritedAttribs[i] != InheritedAttribs[j]
  {
  }

  /** The two infos agree on field `a` of every doc. */
  ghost predicate SameField(i1: Info, i2: Info, a: string) {
    forall d :: Slot(i1, d, a) == Slot(i2, d, a)
  }

  /** Field `b` of doc `d` after inheriting field `a`. */
  lemma FieldSlot(info: Info, v: nat, src: nat, val: Option<nat>, srcVal: Option<nat>, a: string, d: nat, b: string)
    ensures Slot(InheritField(info, v, src, val, srcVal, a), d, b) ==
              if b != a then Slot(info, d, b)
              else if Slot(info, v, a).Some? && Real(Slot(info, src, a)) then
                if d == v then Slot(info, src, a) else Slot(info, d, a)
              else if srcVal.Some? && val.Some? && Slot(info, val.value, a).Some? && Real(Slot(info, srcVal.value, a)) &&
                      !Real(Slot(info, val.value, a)) then
                if d == val.value then Slot(info, srcVal.value, a) else Slot(info, d, a)
              else Slot(info, d, a)
  {
  }

  /** Inheriting field `b` leaves every other field alone. */
  lemma FieldOther(info: Info, v: nat, src: nat, val: Option<nat>, srcVal: Option<nat>, a: string, b: string)
    requires a != b
    ensures SameField(info, InheritField(info, v, src, val, srcVal, b), a)
  {
  }

  /** Inheriting field `a` reads and writes field `a` only. */
  lemma FieldCongruent(i1: Info, i2: Info, v: nat, src: nat, val: Option<nat>, srcVal: Option<nat>, a: string)
    requires SameField(i1, i2, a)
    ensures SameField(InheritField(i1, v, src, val, srcVal, a), InheritField(i2, v, src, val, srcVal, a), a)
  {
    forall d ensures Slot(InheritField(i1, v, src, val, srcVal, a), d, a) == Slot(InheritField(i2, v, src, val, srcVal, a), d, a) {
      FieldSlot(i1, v, src, val, srcVal, a, d, a);
      FieldSlot(i2, v, src, val, srcVal, a, d, a);
    }
  }

  /** Over a list of distinct fields, field `a` ends as inheriting `a` alone
      would leave it. */
  lemma {:induction false} FieldsOne(info: Info, v: nat, src: nat, val: Option<nat>, srcVal: Option<nat>,
                                     attribs: seq<string>, a: string)
    requires forall i, j :: 0 <= i < j < |attribs| ==> attribs[i] != attribs[j]
    ensures SameField(InheritFields(info, v, src, val, srcVal, attribs),
                      if a in attribs then InheritField(info, v, src, val, srcVal, a) else info, a)
    decreases |attribs|
  {
    if attribs != [] {
      var pre, b := attribs[..|attribs| - 1], attribs[|attribs| - 1];
      assert forall i :: 0 <= i < |pre| ==> pre[i] == attribs[i];
      FieldsOne(info, v, src, val, srcVal, pre, a);
      var mid := InheritFields(info, v, src, val, srcVal, pre);
      if b == a {
        assert a !in pre;
        FieldCongruent(mid, info, v, src, val, srcVal, a);
      } else {
        assert a in attribs <==> a in pre;
        FieldOther(mid, v, src, val, srcVal, a, b);
      }
    }
  }

  /** `v`'s value doc, None when it has none. */
  function ValueDoc(value: map<nat, nat>, v: nat): Option<nat> {
    if v in value then Some(value[v]) else None
  }

  /** `_inherit_info(v)` with `v.overrides` set to `src`. */
  function InfoAfter(info: Info, value: map<nat, nat>, v: nat, src: nat): Info {
    if Docstring(info, v) !in {Unknown, Known(NoneVal)} then info
    else InheritFields(info, v, src, ValueDoc(value, v), ValueDoc(value, src), InheritedAttribs)
  }

  /** `_inherit_info` field by field.  A variable with a docstring of its own
      inherits nothing, and a field outside `_INHERITED_ATTRIBS` never
      changes.  Otherwise a listed field `a` the variable has takes the
      overridden variable's value when that is real; failing that, the
      variable's value doc takes the overridden value doc's `a` when that is
      real and its own is not; failing both, nothing changes.  In each case
      every other doc keeps its `a`. */
  lemma InfoAfterField(info: Info, value: map<nat, nat>, v: nat, src: nat, a: string)
    ensures Docstring(info, v) !in {Unknown, Known(NoneVal)} ==> InfoAfter(info, value, v, src) == info
    ensures a !in InheritedAttribs ==> SameField(InfoAfter(info, value, v, src), info, a)
    ensures var after, val, srcVal := InfoAfter(info, value, v, src), ValueDoc(value, v), ValueDoc(value, src);
            Docstring(info, v) in {Unknown, Known(NoneVal)} && a in InheritedAttribs ==>
              if Slot(info, v, a).Some? && Real(Slot(info, src, a)) then
                forall d :: Slot(after, d, a) == if d == v then Slot(info, src, a) else Slot(info, d, a)
              else if val.Some? && srcVal.Some? && Slot(info, val.value, a).Some? &&
                      Real(Slot(info, srcVal.value, a)) && !Real(Slot(info, val.value, a)) then
                forall d :: Slot(after, d, a) == if d == val.value then Slot(info, srcVal.value, a) else Slot(info, d, a)
              else SameField(after, info, a)
  {
    if Docstring(info, v) in {Unknown, Known(NoneVal)} {
      InheritedAttribsDistinct();
      FieldsOne(info, v, src, ValueDoc(value, v), ValueDoc(value, src), InheritedAttribs, a);
    }
  }

  /** `_inherit_info` run on each variable of `links` in turn, each against
      the variable `overrides` links it to. */
  function InfoChain(info: Info, value: map<nat, nat>, links: seq<nat>, overrides: map<nat, nat>): Info
    requires forall x :: x in links ==> x in overrides
    decreases |links|
  {
    if links == [] then info
    else
      var x := links[|links| - 1];
      InfoAfter(InfoChain(info, value, links[..|links| - 1], overrides), value, x, overrides[x])
  }

  /** The chain reads the links of its own variables only. */
  lemma {:induction false} ChainFrame(info: Info, value: map<nat, nat>, links: seq<nat>, o1: map<nat, nat>, o2: map<nat, nat>)
    requires forall x :: x in links ==> x in o1 && x in o2 && o1[x] == o2[x]
    ensures InfoChain(info, value, links, o1) == InfoChain(info, value, links, o2)
    decreases |links|
  {
    if links != [] {
      ChainFrame(info, value, links[..|links| - 1], o1, o2);
    }
  }

  lemma {:induction false} ChainAppend(info: Info, value: map<nat, nat>, l1: seq<nat>, l2: seq<nat>, o: map<nat, nat>)
    requires forall x :: x in l1 + l2 ==> x in o
    ensures InfoChain(info, value, l1 + l2, o) == InfoChain(InfoChain(info, value, l1, o), value, l2, o)
    decreases |l2|
  {
    if l2 == [] {
      assert l1 + l2 == l1;
    } else {
      var pre := l2[..|l2| - 1];
      assert (l1 + l2)[..|l1 + l2| - 1] == l1 + pre;
      ChainAppend(info, value, l1, pre, o);
    }
  }

  /** `linked` lists, once each, the variables linked in `after` but not in
      `before`. */
  ghost predicate LinkedIn(linked: seq<nat>, before: map<nat, nat>, after: map<nat, nat>) {
    (forall i, j :: 0 <= i < j < |linked| ==> linked[i] != linked[j]) &&
    (forall x :: x in linked <==> x in after && x !in before)
  }

  /** Linking one more variable runs `_inherit_info` on it last. */
  lemma ChainSnoc(info: Info, value: map<nat, nat>, linked: seq<nat>, o0: map<nat, nat>, o1: map<nat, nat>, x: nat, t: nat)
    requires LinkedIn(linked, o0, o1) && x !in o1
    requires forall y :: y in o0 ==> y in o1
    ensures LinkedIn(linked + [x], o0, o1[x := t])
    ensures InfoChain(info, value, linked + [x], o1[x := t]) == InfoAfter(InfoChain(info, value, linked, o1), value, x, t)
  {
    assert (linked + [x])[..|linked|] == linked;
    ChainFrame(info, value, linked, o1, o1[x := t]);
  }

  /** The links of two consecutive stretches chain up. */
  lemma ChainConcat(info: Info, value: map<nat, nat>, l1: seq<nat>, l2: seq<nat>,
                    o0: map<nat, nat>, o1: map<nat, nat>, o2: map<nat, nat>)
    requires LinkedIn(l1, o0, o1) && LinkedIn(l2, o1, o2)
    requires forall x :: x in o0 ==> x in o1
    requires forall x :: x in o1 ==> x in o2 && o2[x] == o1[x]
    ensures LinkedIn(l1 + l2, o0, o2)
    ensures InfoChain(info, value, l1 + l2, o2) == InfoChain(InfoChain(info, value, l1, o1), value, l2, o2)
  {
    forall i, j | 0 <= i < j < |l1 + l2| ensures (l1 + l2)[i] != (l1 + l2)[j] {
      if i < |l1| && j >= |l1| {
        assert l1[i] in l1 && l2[j - |l1|] in l2;
      }
    }
    ChainFrame(info, value, l1, o1, o2);
    ChainAppend(info, value, l1, l2, o2);
  }

  /** `name.startswith('__') and not name.endswith('__')`. */
  predicate Private(name: string) {
    |name| >= 2 && name[..2] == "__" && name[|name| - 2..] != "__"
  }

  /** The names of a variable dictionary a subclass can inherit. */
  function Inheritable(table: map<string, nat>): (r: set<string>)
    ensures forall n :: n in r <==> n in table && !Private(n)
  {
    set n | n in table && !Private(n)
  }

  /** The first base in `mro`, other than the class itself and with known
      variables, that has an inheritable variable `name`. */
  function Provider(variables: map<nat, map<string, nat>>, c: nat, mro: seq<nat>, name: string): (r: Option<nat>)
    ensures r.Some? ==> r.value in mro && r.value != c && r.value in variables && name in Inheritable(variables[r.value])
    ensures r.None? ==> forall b :: b in mro && b != c && b in variables ==> name !in Inheritable(variables[b])
    decreases |mro|
  {
    if mro == [] then None
    else
      var first := Provider(variables, c, mro[..|mro| - 1], name);
      var last := mro[|mro| - 1];
      if first.Some? then first
      else if last != c && last in variables && name in Inheritable(variables[last]) then Some(last)
      else None
  }

  /** A variable of class `c` may get an `overrides` link: it is a variable
      of `c`'s own, and some base has an inheritable variable of that name. */
  ghost predicate MayOverride(variables: map<nat, map<string, nat>>, container: map<nat, nat>, c: nat, mro: seq<nat>,
                              table: map<string, nat>, x: nat, target: nat)
  {
    x in container && container[x] == c &&
    exists n, b :: n in table && table[n] == x && b in mro && b != c && b in variables &&
                   n in Inheritable(variables[b]) && variables[b][n] == target
  }

  /** An `overrides` link one base justifies: `x` is `c`'s own variable
      under a name the base's dictionary `from` can pass on, bound there to
      `target`. */
  ghost predicate OverrideFrom(container: map<nat, nat>, c: nat, own: map<string, nat>, from: map<string, nat>,
                               x: nat, target: nat)
  {
    x in container && container[x] == c &&
    exists n :: n in own && own[n] == x && n in Inheritable(from) && from[n] == target
  }

  predicate Local(container: map<nat, nat>, c: nat, x: nat) {
    x in container && container[x] == c
  }

  /** `inherit_docs` links the entry `name` of the class's dictionary
      `table` to the base's variable: the name is not private, the entry is
      local to `c`, and its `overrides` is UNKNOWN. */
  predicate SetsLink(container: map<nat, nat>, c: nat, overrides: map<nat, nat>, table: map<string, nat>, name: string) {
    !Private(name) && name in table && Local(container, c, table[name]) && table[name] !in overrides
  }

  /** What holds while one base's names are visited, with `todo` the names
      not yet visited. */
  ghost predicate FromInvariant(container: map<nat, nat>, c: nat, own: map<string, nat>, from: map<string, nat>,
                                todo: set<string>, table: map<string, nat>, overrides0: map<nat, nat>, overrides: map<nat, nat>)
  {
    table.Keys == own.Keys + (Inheritable(from) - todo) &&
    (forall n :: n in own ==> table[n] == own[n]) &&
    (forall n :: n in table && n !in own ==> table[n] == from[n]) &&
    (forall x :: x in overrides0 ==> x in overrides && overrides[x] == overrides0[x]) &&
    (forall x :: x in overrides && x !in overrides0 ==> OverrideFrom(container, c, own, from, x, overrides[x])) &&
    (forall n :: n in own && n in Inheritable(from) && n !in todo && Local(container, c, own[n]) && own[n] !in overrides0 ==>
       own[n] in overrides)
  }

  /** Visiting one more name, as `InheritName` does, keeps the invariant. */
  lemma FromStep(container: map<nat, nat>, c: nat, own: map<string, nat>, from: map<string, nat>, todo: set<string>,
                 name: string, table: map<string, nat>, table': map<string, nat>,
                 overrides0: map<nat, nat>, overrides: map<nat, nat>, overrides': map<nat, nat>)
    requires name in todo && todo <= from.Keys
    requires FromInvariant(container, c, own, from, todo, table, overrides0, overrides)
    requires table' == if !Private(name) && name !in table then table[name := from[name]] else table
    requires if SetsLink(container, c, overrides, table, name) then overrides' == overrides[table[name] := from[name]]
             else overrides' == overrides
    ensures FromInvariant(container, c, own, from, todo - {name}, table', overrides0, overrides')
  {
    if overrides' != overrides {
      assert name in own && own[name] == table[name];
      assert OverrideFrom(container, c, own, from, table[name], from[name]);
    }
    if name in own {
      assert name in table && table[name] == own[name];
    }
  }

  /** The doc store `inherit_docs` works on. */
  class Store {
    var variables: map<nat, map<string, nat>>
    var container: map<nat, nat>
    var overrides: map<nat, nat>
    var value: map<nat, nat>
    var info: Info

    constructor(variables: map<nat, map<string, nat>>, container: map<nat, nat>, overrides: map<nat, nat>,
                value: map<nat, nat>, info: Info)
      ensures this.variables == variables && this.container == container && this.overrides == overrides &&
              this.value == value && this.info == info
    {
      this.variables := variables;
      this.container := container;
      this.overrides := overrides;
      this.value := value;
      this.info := info;
    }

    /** `_inherit_info`: a variable with a docstring of its own (even an
        empty one) inherits nothing; otherwise each field of
        `_INHERITED_ATTRIBS` is inherited as `InheritField` says. */
    method InheritInfo(v: nat)
      requires v in overrides
      modifies this`info
      ensures info == InfoAfter(old(info), value, v, overrides[v])
      ensures InfoGrows(old(info), info)
    {
      if Docstring(info, v) !in {Unknown, Known(NoneVal)} {
        return;
      }
      ghost var info0 := info;
      var src := overrides[v];
      var srcVal, val := ValueDoc(value, src), ValueDoc(value, v);
      for k := 0 to |InheritedAttribs|
        invariant info == InheritFields(info0, v, src, val, srcVal, InheritedAttribs[..k])
      {
        assert InheritedAttribs[..k + 1][..k] == InheritedAttribs[..k];
        info := InheritField(info, v, src, val, srcVal, InheritedAttribs[k]);
      }
      assert InheritedAttribs[..|InheritedAttribs|] == InheritedAttribs;
      InheritFieldsGrow(info0, v, src, val, srcVal, InheritedAttribs);
    }

    /** One name of a base's variable dictionary, with `table` the class's
        dictionary so far: a missing inheritable name is added, bound to
        `target`; an existing entry local to `c` whose `overrides` is
        UNKNOWN gets `overrides` set to `target` and inherits its
        documentation. */
    method InheritName(c: nat, table: map<string, nat>, name: string, target: nat) returns (table': map<string, nat>)
      modifies this`overrides, this`info
      ensures table' == if !Private(name) && name !in table then table[name := target] else table
      ensures SetsLink(container, c, old(overrides), table, name) ==>
                overrides == old(overrides)[table[name] := target] &&
                info == InfoAfter(old(info), value, table[name], target)
      ensures !SetsLink(container, c, old(overrides), table, name) ==> overrides == old(overrides) && info == old(info)
      ensures InfoGrows(old(info), info)
    {
      table' := table;
      if Private(name) {
        return;
      }
      if name !in table {
        table' := table[name := target];
      } else {
        var x := table[name];
        if x in container && container[x] == c && x !in overrides {
          overrides := overrides[x := target];
          InheritInfo(x);
        }
      }
    }

    /** The inner loop of `inherit_docs` for one base: inheritable names
        missing from `c` are added, pointing at the base's variable; a name
        `c` already has keeps its variable, which gets `overrides` set when
        it is local to `c` and its `overrides` is UNKNOWN.  `linked` records
        the variables linked, in the order the (unordered) dictionary was
        walked; `info` is `_inherit_info` run on each of them in that
        order. */
    method InheritFrom(c: nat, base: nat) returns (ghost linked: seq<nat>)
      requires c in variables && base in variables && base != c
      modifies this`variables, this`overrides, this`info
      ensures c in variables && variables == old(variables)[c := variables[c]]
      ensures variables[c].Keys == old(variables)[c].Keys + Inheritable(old(variables)[base])
      ensures forall n :: n in old(variables)[c] ==> variables[c][n] == old(variables)[c][n]
      ensures forall n :: n in variables[c] && n !in old(variables)[c] ==> variables[c][n] == old(variables)[base][n]
      ensures forall x :: x in old(overrides) ==> x in overrides && overrides[x] == old(overrides)[x]
      ensures forall x :: x in overrides && x !in old(overrides) ==>
                OverrideFrom(container, c, old(variables)[c], old(variables)[base], x, overrides[x])
      ensures forall n :: n in old(variables)[c] && n in Inheritable(old(variables)[base]) &&
                          Local(container, c, old(variables)[c][n]) && old(variables)[c][n] !in old(overrides) ==>
                old(variables)[c][n] in overrides
      ensures LinkedIn(linked, old(overrides), overrides) && info == InfoChain(old(info), value, linked, overrides)
      ensures InfoGrows(old(info), info)
    {
      var from, own := variables[base], variables[c];
      ghost var overrides0, info0 := overrides, info;
      linked := [];
      var table := own;
      var todo := from.Keys;
      while todo != {}
        invariant todo <= from.Keys && variables == old(variables)
        invariant FromInvariant(container, c, own, from, todo, table, overrides0, overrides)
        invariant LinkedIn(linked, overrides0, overrides) && info == InfoChain(info0, value, linked, overrides)
        invariant InfoGrows(info0, info)
        decreases todo
      {
        var name :| name in todo;
        ghost var table0, overrides1, info1 := table, overrides, info;
        table := InheritName(c, table, name, from[name]);
        InfoGrowsTrans(info0, info1, info);
        FromStep(container, c, own, from, todo, name, table0, table, overrides0, overrides1, overrides);
        if SetsLink(container, c, overrides1, table0, name) {
          ChainSnoc(info0, value, linked, overrides0, overrides1, table0[name], from[name]);
          linked := linked + [table0[name]];
        }
        todo := todo - {name};
      }
      variables := variables[c := table];
    }

    /** `inherit_docs`: the bases of `mro` (the class's method resolution
        order) are visited in order, skipping the class itself and bases
        whose variables are UNKNOWN.  Afterwards `c` has every name it had,
        bound as before, and every inheritable name of those bases, bound to
        the variable of the first base that has it; `overrides` links are
        only added, each on a variable of `c`'s own, and every local variable
        whose name a base provides is linked; `info` is `_inherit_info` run
        on the linked variables in the order they were linked. */
    method InheritDocs(c: nat, mro: seq<nat>) returns (ghost linked: seq<nat>)
      requires c in variables
      modifies this`variables, this`overrides, this`info
      ensures c in variables && variables == old(variables)[c := variables[c]]
      ensures DocsInherited(old(variables), container, value, c, mro, variables[c],
                            old(overrides), overrides, old(info), info, linked)
    {
      ghost var vars0, overrides0, info0 := variables, overrides, info;
      linked := [];
      for i := 0 to |mro|
        invariant c in variables && variables == vars0[c := variables[c]]
        invariant DocsInherited(vars0, container, value, c, mro[..i], variables[c], overrides0, overrides, info0, info, linked)
      {
        var base := mro[i];
        assert mro[..i + 1] == mro[..i] + [base];
        if base != c && base in variables {
          ghost var own, overrides1, info1 := variables[c], overrides, info;
          ghost var added: seq<nat>;
          added := InheritFrom(c, base);
          UpdateTwice(vars0, c, own, variables[c]);
          DocsStep(vars0, container, value, c, mro[..i], base, own, variables[c],
                   overrides0, overrides1, overrides, info0, info1, info, linked, added);
          linked := linked + added;
        } else {
          DocsSkip(vars0, container, value, c, mro[..i], base, variables[c], overrides0, overrides, info0, info, linked);
        }
      }
      assert mro[..|mro|] == mro;
    }
  }

  /** The class's table after visiting the bases `mro`: the names it had,
      bound as before, and the names some base provides, bound to the first
      provider's variable. */
  ghost predicate TableInherited(vars0: map<nat, map<string, nat>>, c: nat, mro: seq<nat>, table: map<string, nat>)
    requires c in vars0
  {
    (forall n :: n in table <==> n in vars0[c] || Provider(vars0, c, mro, n).Some?) &&
    (forall n :: n in vars0[c] ==> table[n] == vars0[c][n]) &&
    (forall n :: n in table && n !in vars0[c] ==> table[n] == vars0[Provider(vars0, c, mro, n).value][n])
  }

  /** The links only grow, and each new one is justified by a base of `mro`. */
  ghost predicate OverridesAdded(vars0: map<nat, map<string, nat>>, container: map<nat, nat>, c: nat, mro: seq<nat>,
                                 table: map<string, nat>, before: map<nat, nat>, after: map<nat, nat>)
  {
    (forall x :: x in before ==> x in after && after[x] == before[x]) &&
    (forall x :: x in after && x !in before ==> MayOverride(vars0, container, c, mro, table, x, after[x]))
  }

  /** `c` holds its variable `n` under that name only, and no other
      dictionary holds it. */
  ghost predicate SoleName(vars0: map<nat, map<string, nat>>, c: nat, n: string)
    requires c in vars0 && n in vars0[c]
  {
    forall b, m :: b in vars0 && m in vars0[b] && vars0[b][m] == vars0[c][n] ==> b == c && m == n
  }

  /** Every local variable of `c` without a link before, whose name a base of
      `mro` provides, is linked; when it is the class's only entry for that
      variable, it is linked exactly when a base provides the name, and to
      the first provider's variable of that name. */
  ghost predicate LinksComplete(vars0: map<nat, map<string, nat>>, container: map<nat, nat>, c: nat, mro: seq<nat>,
                                before: map<nat, nat>, after: map<nat, nat>)
    requires c in vars0
  {
    forall n :: n in vars0[c] && Local(container, c, vars0[c][n]) && vars0[c][n] !in before ==>
      (Provider(vars0, c, mro, n).Some? ==> vars0[c][n] in after) &&
      (SoleName(vars0, c, n) ==>
         (vars0[c][n] in after ==> Provider(vars0, c, mro, n).Some?) &&
         (Provider(vars0, c, mro, n).Some? ==> after[vars0[c][n]] == vars0[Provider(vars0, c, mro, n).value][n]))
  }

  /** The provider after one more base: the earlier one, else that base when
      it counts and has the name. */
  lemma ProviderSnoc(variables: map<nat, map<string, nat>>, c: nat, mro: seq<nat>, base: nat)
    ensures forall n :: Provider(variables, c, mro + [base], n) ==
                        if Provider(variables, c, mro, n).Some? then Provider(variables, c, mro, n)
                        else if base != c && base in variables && n in Inheritable(variables[base]) then Some(base)
                        else None
  {
    assert (mro + [base])[..|mro|] == mro;
  }

  /** A sole variable of the class is the only entry the inherited table has
      for it. */
  lemma SoleInTable(vars0: map<nat, map<string, nat>>, c: nat, mro: seq<nat>, table: map<string, nat>, n: string, m: string)
    requires c in vars0 && n in vars0[c] && SoleName(vars0, c, n)
    requires TableInherited(vars0, c, mro, table)
    requires m in table && table[m] == vars0[c][n]
    ensures m == n
  {
    if m !in vars0[c] {
      assert false;
    }
  }

  /** Visiting one more base keeps the links complete. */
  lemma CompleteStep(vars0: map<nat, map<string, nat>>, container: map<nat, nat>, c: nat, mro: seq<nat>, base: nat,
                     own: map<string, nat>, o0: map<nat, nat>, o1: map<nat, nat>, o2: map<nat, nat>)
    requires c in vars0 && base != c && base in vars0
    requires TableInherited(vars0, c, mro, own)
    requires LinksComplete(vars0, container, c, mro, o0, o1)
    requires forall x :: x in o0 ==> x in o1
    requires forall x :: x in o1 ==> x in o2 && o2[x] == o1[x]
    requires forall x :: x in o2 && x !in o1 ==> OverrideFrom(container, c, own, vars0[base], x, o2[x])
    requires forall n :: n in own && n in Inheritable(vars0[base]) && Local(container, c, own[n]) && own[n] !in o1 ==>
               own[n] in o2
    ensures LinksComplete(vars0, container, c, mro + [base], o0, o2)
  {
    ProviderSnoc(vars0, c, mro, base);
    forall n | n in vars0[c] && Local(container, c, vars0[c][n]) && vars0[c][n] !in o0
      ensures (Provider(vars0, c, mro + [base], n).Some? ==> vars0[c][n] in o2) &&
              (SoleName(vars0, c, n) ==>
                 (vars0[c][n] in o2 ==> Provider(vars0, c, mro + [base], n).Some?) &&
                 (Provider(vars0, c, mro + [base], n).Some? ==>
                    o2[vars0[c][n]] == vars0[Provider(vars0, c, mro + [base], n).value][n]))
    {
      var x := vars0[c][n];
      assert own[n] == x;
      if SoleName(vars0, c, n) && x in o2 && x !in o1 {
        var m :| m in own && own[m] == x && m in Inheritable(vars0[base]) && vars0[base][m] == o2[x];
        SoleInTable(vars0, c, mro, own, n, m);
      }
    }
  }

  /** The state after `inherit_docs` has visited the bases `mro`, from the
      dictionaries `vars0`, links `o0` and fields `info0`: the class's table
      is the inherited one (`TableInherited`); the old links stay and each
      new one is justified (`OverridesAdded`); every local variable whose
      name a base provides is linked, a sole one to the first provider's
      variable (`LinksComplete`); `linked` lists the new links in the order
      they were set, and the fields are `_inherit_info` run on them in that
      order; no real field is lost. */
  ghost predicate DocsInherited(vars0: map<nat, map<string, nat>>, container: map<nat, nat>, value: map<nat, nat>,
                                c: nat, mro: seq<nat>, table: map<string, nat>, o0: map<nat, nat>, o: map<nat, nat>,
                                info0: Info, info: Info, linked: seq<nat>)
    requires c in vars0
  {
    TableInherited(vars0, c, mro, table) &&
    OverridesAdded(vars0, container, c, mro, table, o0, o) &&
    LinksComplete(vars0, container, c, mro, o0, o) &&
    LinkedIn(linked, o0, o) && info == InfoChain(info0, value, linked, o) &&
    InfoGrows(info0, info)
  }

  /** Visiting one more base, as `InheritFrom` does, keeps the invariant. */
  lemma DocsStep(vars0: map<nat, map<string, nat>>, container: map<nat, nat>, value: map<nat, nat>, c: nat,
                 mro: seq<nat>, base: nat, own: map<string, nat>, table: map<string, nat>,
                 o0: map<nat, nat>, o1: map<nat, nat>, o2: map<nat, nat>, info0: Info, info1: Info, info2: Info,
                 linked: seq<nat>, added: seq<nat>)
    requires c in vars0 && base != c && base in vars0
    requires DocsInherited(vars0, container, value, c, mro, own, o0, o1, info0, info1, linked)
    requires table.Keys == own.Keys + Inheritable(vars0[base])
    requires forall n :: n in own ==> table[n] == own[n]
    requires forall n :: n in table && n !in own ==> table[n] == vars0[base][n]
    requires forall x :: x in o1 ==> x in o2 && o2[x] == o1[x]
    requires forall x :: x in o2 && x !in o1 ==> OverrideFrom(container, c, own, vars0[base], x, o2[x])
    requires forall n :: n in own && n in Inheritable(vars0[base]) && Local(container, c, own[n]) && own[n] !in o1 ==>
               own[n] in o2
    requires LinkedIn(added, o1, o2) && info2 == InfoChain(info1, value, added, o2)
    requires InfoGrows(info1, info2)
    ensures DocsInherited(vars0, container, value, c, mro + [base], table, o0, o2, info0, info2, linked + added)
  {
    InfoGrowsTrans(info0, info1, info2);
    InheritStep(vars0, c, mro, base, own, table);
    OverridesStep(vars0, container, c, mro, base, own, table, o0, o1, o2);
    CompleteStep(vars0, container, c, mro, base, own, o0, o1, o2);
    ChainConcat(info0, value, linked, added, o0, o1, o2);
  }

  /** Skipping the class itself or a base with UNKNOWN variables keeps the
      invariant. */
  lemma DocsSkip(vars0: map<nat, map<string, nat>>, container: map<nat, nat>, value: map<nat, nat>, c: nat,
                 mro: seq<nat>, base: nat, table: map<string, nat>, o0: map<nat, nat>, o: map<nat, nat>,
                 info0: Info, info: Info, linked: seq<nat>)
    requires c in vars0 && (base == c || base !in vars0)
    requires DocsInherited(vars0, container, value, c, mro, table, o0, o, info0, info, linked)
    ensures DocsInherited(vars0, container, value, c, mro + [base], table, o0, o, info0, info, linked)
  {
    ProviderSnoc(vars0, c, mro, base);
    forall x | x in o && x !in o0 ensures MayOverride(vars0, container, c, mro + [base], table, x, o[x]) {
      MayOverrideWiden(vars0, vars0, container, c, mro, mro + [base], table, table, x, o[x]);
    }
  }

  /** Visiting one more base keeps the `overrides` links justified. */
  lemma OverridesStep(vars0: map<nat, map<string, nat>>, container: map<nat, nat>, c: nat, mro: seq<nat>, base: nat,
                      own: map<string, nat>, table: map<string, nat>,
                      overrides0: map<nat, nat>, overrides1: map<nat, nat>, overrides2: map<nat, nat>)
    requires base != c && base in vars0
    requires OverridesAdded(vars0, container, c, mro, own, overrides0, overrides1)
    requires forall n :: n in own ==> n in table && table[n] == own[n]
    requires forall x :: x in overrides1 ==> x in overrides2 && overrides2[x] == overrides1[x]
    requires forall x :: x in overrides2 && x !in overrides1 ==> OverrideFrom(container, c, own, vars0[base], x, overrides2[x])
    ensures OverridesAdded(vars0, container, c, mro + [base], table, overrides0, overrides2)
  {
    forall x | x in overrides2 && x !in overrides0
      ensures MayOverride(vars0, container, c, mro + [base], table, x, overrides2[x])
    {
      if x in overrides1 {
        MayOverrideWiden(vars0, vars0, container, c, mro, mro + [base], own, table, x, overrides2[x]);
      } else {
        var n :| n in own && own[n] == x && n in Inheritable(vars0[base]) && vars0[base][n] == overrides2[x];
        assert n in table && table[n] == x && base in mro + [base];
      }
    }
  }

  lemma UpdateTwice(m: map<nat, map<string, nat>>, k: nat, a: map<string, nat>, b: map<string, nat>)
    ensures m[k := a][k := b] == m[k := b]
  {
  }

  /** A further base that is the class itself or has UNKNOWN variables
      provides nothing. */
  lemma ProviderSkip(variables: map<nat, map<string, nat>>, c: nat, mro: seq<nat>, base: nat)
    requires base == c || base !in variables
    ensures forall n :: Provider(variables, c, mro + [base], n) == Provider(variables, c, mro, n)
  {
    forall n ensures Provider(variables, c, mro + [base], n) == Provider(variables, c, mro, n) {
      assert (mro + [base])[..|mro|] == mro;
    }
  }

  /** Visiting one more base extends the class's table by the names that base
      provides first. */
  lemma InheritStep(vars0: map<nat, map<string, nat>>, c: nat, mro: seq<nat>, base: nat,
                    own: map<string, nat>, after: map<string, nat>)
    requires c in vars0 && base != c && base in vars0
    requires TableInherited(vars0, c, mro, own)
    requires after.Keys == own.Keys + Inheritable(vars0[base])
    requires forall n :: n in own ==> after[n] == own[n]
    requires forall n :: n in after && n !in own ==> after[n] == vars0[base][n]
    ensures TableInherited(vars0, c, mro + [base], after)
  {
    forall n ensures Provider(vars0, c, mro + [base], n) ==
                     if Provider(vars0, c, mro, n).Some? then Provider(vars0, c, mro, n)
                     else if n in Inheritable(vars0[base]) then Some(base) else None
    {
      assert (mro + [base])[..|mro|] == mro;
    }
  }

  /** An `overrides` link justified by some bases is justified by any list
      that contains them, for a table that keeps the linked entry. */
  lemma MayOverrideWiden(variables: map<nat, map<string, nat>>, variables': map<nat, map<string, nat>>,
                         container: map<nat, nat>, c: nat,
                         mro: seq<nat>, mro': seq<nat>, table: map<string, nat>, table': map<string, nat>, x: nat, target: nat)
    requires MayOverride(variables, container, c, mro, table, x, target)
    requires forall b :: b != c ==> (b in variables <==> b in variables') && (b in variables ==> variables[b] == variables'[b])
    requires forall b :: b in mro ==> b in mro'
    requires forall n :: n in table ==> n in table' && table'[n] == table[n]
    ensures MayOverride(variables', container, c, mro', table', x, target)
  {
    var n, b :| n in table && table[n] == x && b in mro && b != c && b in variables &&
                n in Inheritable(variables[b]) && variables[b][n] == target;
    assert n in table' && table'[n] == x && b in mro' && b in variables' && variables'[b] == variables[b];
  }
}
