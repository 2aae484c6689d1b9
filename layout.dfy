/** The pure helpers of the graph writer: the English name list of graph
    titles, the colour of a nested UML package box, and the nested layout of
    a package tree as one HTML label, wrapping the submodule boxes into rows
    of at most 80 (roughly) characters. */
module PackageLayout {
  import opened Wrappers
  import opened Strings
  import opened Seqs

  const MaxRowWidth: nat := 80
  const NoopUrl: string := "javascript:;"
  const ModuleBg: string := "#d8e8ff"
  const SelectedBg: string := "#ffd0d0"

  // ------------------------------------------------------------- name_list

  /** `name_list`, on the already contextualised names. */
  function NameList(names: seq<string>): (r: string)
    ensures names == [] ==> r == ""
    ensures |names| == 1 ==> r == names[0]
    ensures |names| == 2 ==> r == names[0] + " and " + names[1]
    ensures |names| >= 3 ==> r == Join(names[..|names| - 1], ", ") + ", and " + names[|names| - 1]
  {
    if |names| == 0 then ""
    else if |names| == 1 then names[0]
    else if |names| == 2 then names[0] + " and " + names[1]
    else Join(names[..|names| - 1], ", ") + ", and " + names[|names| - 1]
  }

  /** x occurs as a contiguous piece of s. */
  ghost predicate Occurs(x: string, s: string) {
    exists a, b :: s == a + x + b
  }

  lemma OccursSelf(x: string)
    ensures Occurs(x, x)
  {
    assert x == "" + x + "";
  }

  lemma OccursEnd(a: string, x: string)
    ensures Occurs(x, a + x)
  {
    assert a + x == a + x + "";
  }

  lemma OccursAppend(x: string, s: string, b: string)
    requires Occurs(x, s)
    ensures Occurs(x, s + b)
  {
    var a', b' :| s == a' + x + b';
    assert s + b == a' + x + (b' + b);
  }

  /** Each part of a join occurs in it. */
  lemma {:induction false} JoinContains(parts: seq<string>, sep: string, i: nat)
    requires i < |parts|
    ensures Occurs(parts[i], Join(parts, sep))
    decreases |parts|
  {
    var n := |parts|;
    if n == 1 {
      OccursSelf(parts[i]);
    } else if i == n - 1 {
      OccursEnd(Join(parts[..n - 1], sep) + sep, parts[i]);
    } else {
      var init := parts[..n - 1];
      JoinContains(init, sep, i);
      assert init[i] == parts[i];
      OccursAppend(parts[i], Join(init, sep), sep);
      OccursAppend(parts[i], Join(init, sep) + sep, parts[n - 1]);
    }
  }

  /** Every name appears in the name list. */
  lemma NameListMentionsAll(names: seq<string>, i: nat)
    requires i < |names|
    ensures Occurs(names[i], NameList(names))
  {
    var n := |names|;
    if n == 1 {
      OccursSelf(names[i]);
    } else if n == 2 && i == 0 {
      OccursSelf(names[0]);
      OccursAppend(names[0], names[0], " and ");
      OccursAppend(names[0], names[0] + " and ", names[1]);
    } else if i == n - 1 {
      var head := if n == 2 then names[0] + " and " else Join(names[..n - 1], ", ") + ", and ";
      OccursEnd(head, names[i]);
    } else {
      JoinContains(names[..n - 1], ", ", i);
      assert names[..n - 1][i] == names[i];
      OccursAppend(names[i], Join(names[..n - 1], ", "), ", and ");
      OccursAppend(names[i], Join(names[..n - 1], ", ") + ", and ", names[n - 1]);
    }
  }

  // ---------------------------------------------------------------- colour

  /** One colour channel at the given depth: each level below the top
      darkens it by 10, never below 0. */
  function Channel(c: nat, depth: nat): nat
    requires depth >= 1
    decreases depth
  {
    if depth == 1 then c
    else
      var above := Channel(c, depth - 1);
      if above >= 10 then above - 10 else 0
  }

  /** The channel is `max(0, c - (depth - 1) * 10)`. */
  lemma {:induction false} ChannelClamped(c: nat, depth: nat)
    requires depth >= 1
    ensures Channel(c, depth) == if c >= (depth - 1) * 10 then c - (depth - 1) * 10 else 0
    decreases depth
  {
    if depth > 1 {
      ChannelClamped(c, depth - 1);
    }
  }

  lemma ChannelBound(c: nat, depth: nat)
    requires depth >= 1
    ensures Channel(c, depth) <= c
  {
    ChannelClamped(c, depth);
  }

  /** The RGB value of a package box at the given depth.  The base colour is
      always 0xd8e8ff: the pattern test on the base colour has its arguments
      swapped and never matches, and its fallback is the same colour. */
  function PackageRgb(depth: nat): (v: nat)
    requires depth >= 1
    ensures v < Pow16(6)
  {
    assert Pow16(6) == 16777216;
    ChannelBound(0xd8, depth);
    ChannelBound(0xe8, depth);
    ChannelBound(0xff, depth);
    Channel(0xd8, depth) * 0x10000 + Channel(0xe8, depth) * 0x100 + Channel(0xff, depth)
  }

  /** `_nested_uml_package_color`. */
  function PackageColor(isContext: bool, depth: nat): (c: string)
    requires depth >= 1
    ensures |c| == 7 && c[0] == '#'
    ensures forall i :: 1 <= i < 7 ==> IsHexChar(c[i])
  {
    if isContext then SelectedBg else "#" + HexFixed(PackageRgb(depth), 6)
  }

  lemma Unpack(r: nat, g: nat, b: nat)
    requires r < 0x100 && g < 0x100 && b < 0x100
    ensures (r * 0x10000 + g * 0x100 + b) / 0x10000 == r
    ensures ((r * 0x10000 + g * 0x100 + b) / 0x100) % 0x100 == g
    ensures (r * 0x10000 + g * 0x100 + b) % 0x100 == b
  {
    var v := r * 0x10000 + g * 0x100 + b;
    var q := r * 0x100 + g;
    assert v == q * 0x100 + b;
    assert v / 0x100 == q;
    assert v % 0x100 == b;
    assert q % 0x100 == g && q / 0x100 == r;
    assert v == r * 0x10000 + (g * 0x100 + b) && g * 0x100 + b < 0x10000;
  }

  /** The digits of a package colour spell its RGB value. */
  lemma PackageColorValue(depth: nat)
    requires depth >= 1
    ensures ParseHex(PackageColor(false, depth)[1..]) == PackageRgb(depth)
  {
    var v := PackageRgb(depth);
    assert PackageColor(false, depth)[1..] == HexFixed(v, 6);
    ParseHexFixed(v, 6);
  }

  /** The RGB value holds the three darkened channels. */
  lemma PackageRgbChannels(depth: nat)
    requires depth >= 1
    ensures PackageRgb(depth) / 0x10000 == Channel(0xd8, depth)
    ensures (PackageRgb(depth) / 0x100) % 0x100 == Channel(0xe8, depth)
    ensures PackageRgb(depth) % 0x100 == Channel(0xff, depth)
  {
    ChannelBound(0xd8, depth);
    ChannelBound(0xe8, depth);
    ChannelBound(0xff, depth);
    Unpack(Channel(0xd8, depth), Channel(0xe8, depth), Channel(0xff, depth));
  }

  /** The package being documented is highlighted at every depth. */
  lemma ContextColor(depth: nat)
    requires depth >= 1
    ensures PackageColor(true, depth) == SelectedBg
  {
  }

  /** The top level has the module background colour. */
  lemma TopLevelColor()
    ensures PackageColor(false, 1) == ModuleBg
  {
    assert PackageRgb(1) == 14215423;
    assert HexFixed(0, 0) == "";
    assert HexFixed(13, 1) == "d";
    assert HexFixed(216, 2) == "d8";
    assert HexFixed(3470, 3) == "d8e";
    assert HexFixed(55528, 4) == "d8e8";
    assert HexFixed(888463, 5) == "d8e8f";
    assert HexFixed(14215423, 6) == "d8e8ff";
  }

  /** A deeper level is never lighter, on every channel. */
  lemma DeeperIsDarker(c: nat, depth: nat)
    requires depth >= 1
    ensures Channel(c, depth + 1) <= Channel(c, depth)
    ensures Channel(c, depth + 1) == 0 || Channel(c, depth + 1) + 10 == Channel(c, depth)
  {
  }

  // ----------------------------------------------------------------- rows

  function Flatten(rows: seq<seq<nat>>): seq<nat> {
    if rows == [] then [] else Flatten(rows[..|rows| - 1]) + rows[|rows| - 1]
  }

  /** Whether a box of width w opens a new row after a row of width `last`. */
  predicate Breaks(last: nat, w: nat) {
    last > 0 && w + last > MaxRowWidth
  }

  /** Adds one box to the rows. */
  function RowsStep(prev: seq<seq<nat>>, w: nat): (rows: seq<seq<nat>>)
    requires |prev| >= 1
    ensures |rows| >= 1
  {
    var cur := prev[|prev| - 1];
    if Breaks(Sum(cur), w) then prev + [[w]] else prev[|prev| - 1 := cur + [w]]
  }

  /** The rows of boxes the layout produces from the first n widths, taken
      left to right. */
  function Rows(ws: seq<nat>, n: nat): (rows: seq<seq<nat>>)
    requires n <= |ws|
    ensures |rows| >= 1
  {
    if n == 0 then [[]] else RowsStep(Rows(ws, n - 1), ws[n - 1])
  }

  /** One iteration of the row loop on `row_width`: a box that breaks the row
      opens a new total (appending 0 and then adding the width appends the
      width), any other box adds to the last total. */
  function WidthStep(rw: seq<nat>, w: nat): (r: seq<nat>)
    requires |rw| >= 1
    ensures |r| >= 1
  {
    var last := rw[|rw| - 1];
    if Breaks(last, w) then rw + [w] else rw[|rw| - 1 := last + w]
  }

  /** The loop's `row_width` list after the first n boxes. */
  function RowWidths(ws: seq<nat>, n: nat): (r: seq<nat>)
    requires n <= |ws|
    ensures |r| >= 1
  {
    if n == 0 then [0] else WidthStep(RowWidths(ws, n - 1), ws[n - 1])
  }

  /** `rw` holds the total width of each row of `rows`. */
  predicate WidthsMatch(rw: seq<nat>, rows: seq<seq<nat>>) {
    |rw| == |rows| && forall i :: 0 <= i < |rows| ==> rw[i] == Sum(rows[i])
  }

  /** One loop iteration on `row_width` follows one step of the rows. */
  lemma StepMatch(rw: seq<nat>, prev: seq<seq<nat>>, w: nat)
    requires |prev| >= 1 && WidthsMatch(rw, prev)
    ensures WidthsMatch(WidthStep(rw, w), RowsStep(prev, w))
  {
    var k := |prev|;
    var cur := prev[k - 1];
    var rw' := WidthStep(rw, w);
    var rows := RowsStep(prev, w);
    if Breaks(Sum(cur), w) {
      assert rw' == rw + [w] && rows == prev + [[w]];
      SumSingle(w);
      forall i | 0 <= i < |rows| ensures rw'[i] == Sum(rows[i]) {
        if i < k { assert rw'[i] == rw[i] && rows[i] == prev[i]; }
      }
    } else {
      assert rw' == rw[k - 1 := rw[k - 1] + w] && rows == prev[k - 1 := cur + [w]];
      SumSnoc(cur, w);
      forall i | 0 <= i < |rows| ensures rw'[i] == Sum(rows[i]) {
        if i < k - 1 { assert rw'[i] == rw[i] && rows[i] == prev[i]; }
      }
    }
  }

  /** `row_width` holds the total width of each row. */
  lemma {:induction false} RowWidthsAreSums(ws: seq<nat>, n: nat)
    requires n <= |ws|
    ensures WidthsMatch(RowWidths(ws, n), Rows(ws, n))
  {
    if n == 0 {
      assert Sum([]) == 0;
    } else {
      RowWidthsAreSums(ws, n - 1);
      StepMatch(RowWidths(ws, n - 1), Rows(ws, n - 1), ws[n - 1]);
    }
  }

  lemma FlattenSnoc(rows: seq<seq<nat>>, row: seq<nat>)
    ensures Flatten(rows + [row]) == Flatten(rows) + row
  {
    assert (rows + [row])[..|rows|] == rows;
  }

  lemma FlattenUpdateLast(rows: seq<seq<nat>>, row: seq<nat>, w: nat)
    requires rows != [] && row == rows[|rows| - 1]
    ensures Flatten(rows[|rows| - 1 := row + [w]]) == Flatten(rows) + [w]
  {
    var k := |rows| - 1;
    var rows' := rows[k := row + [w]];
    assert rows'[..k] == rows[..k];
    assert Flatten(rows') == Flatten(rows[..k]) + (row + [w]);
    assert Flatten(rows) == Flatten(rows[..k]) + row;
  }

  /** Wrapping keeps every width, in order. */
  lemma {:induction false} RowsFlatten(ws: seq<nat>, n: nat)
    requires n <= |ws|
    ensures Flatten(Rows(ws, n)) == ws[..n]
  {
    if n > 0 {
      RowsFlatten(ws, n - 1);
      var prev := Rows(ws, n - 1);
      var w := ws[n - 1];
      var cur := prev[|prev| - 1];
      if Breaks(Sum(cur), w) {
        FlattenSnoc(prev, [w]);
      } else {
        FlattenUpdateLast(prev, cur, w);
      }
      TakeNext(ws, n);
    }
  }

  /** A row within the budget, or one whose last box alone overflows it
      (the boxes before it take no width). */
  predicate RowFits(row: seq<nat>) {
    Sum(row) <= MaxRowWidth || (row != [] && Sum(row[..|row| - 1]) == 0)
  }

  lemma {:induction false} RowsFit(ws: seq<nat>, n: nat)
    requires n <= |ws|
    ensures forall i :: 0 <= i < |Rows(ws, n)| ==> RowFits(Rows(ws, n)[i])
  {
    if n > 0 {
      RowsFit(ws, n - 1);
      var prev := Rows(ws, n - 1);
      var w := ws[n - 1];
      var cur := prev[|prev| - 1];
      var rows := Rows(ws, n);
      if Breaks(Sum(cur), w) {
        assert rows == prev + [[w]];
        assert [w][..0] == [];
        assert RowFits([w]);
        forall i | 0 <= i < |rows| ensures RowFits(rows[i]) {
          if i < |prev| { assert rows[i] == prev[i]; }
        }
      } else {
        var row := cur + [w];
        assert rows == prev[|prev| - 1 := row];
        assert row[..|row| - 1] == cur;
        SumSnoc(cur, w);
        assert RowFits(row);
        forall i | 0 <= i < |rows| ensures RowFits(rows[i]) {
          if i < |prev| - 1 { assert rows[i] == prev[i]; }
        }
      }
    }
  }

  /** Row i (i >= 1) was opened because its first box did not fit on row i - 1. */
  predicate OpenedByOverflow(rows: seq<seq<nat>>, i: nat)
    requires 0 < i < |rows|
  {
    rows[i] != [] && Breaks(Sum(rows[i - 1]), rows[i][0])
  }

  /** A row ends only when the next box would not fit on it. */
  lemma {:induction false} RowsGreedy(ws: seq<nat>, n: nat)
    requires n <= |ws|
    ensures forall i :: 0 < i < |Rows(ws, n)| ==> OpenedByOverflow(Rows(ws, n), i)
  {
    if n > 0 {
      RowsGreedy(ws, n - 1);
      var prev := Rows(ws, n - 1);
      var w := ws[n - 1];
      var k := |prev|;
      var cur := prev[k - 1];
      var rows := Rows(ws, n);
      if Breaks(Sum(cur), w) {
        assert rows == prev + [[w]];
        forall i | 0 < i < |rows| ensures OpenedByOverflow(rows, i) {
          assert rows[i - 1] == prev[i - 1];
          if i < k {
            assert rows[i] == prev[i];
            assert OpenedByOverflow(prev, i);
          }
        }
      } else {
        assert rows == prev[k - 1 := cur + [w]];
        forall i | 0 < i < |rows| ensures OpenedByOverflow(rows, i) {
          assert rows[i - 1] == prev[i - 1];
          assert OpenedByOverflow(prev, i);
          if i < k - 1 {
            assert rows[i] == prev[i];
          } else {
            assert rows[i] == cur + [w];
            assert rows[i][0] == cur[0];
          }
        }
      }
    }
  }

  predicate RowWithin(row: seq<nat>, ws: seq<nat>) {
    forall j :: 0 <= j < |row| ==> row[j] in ws
  }

  /** Every box of a row is one of the widths. */
  lemma {:induction false} RowsElements(ws: seq<nat>, n: nat)
    requires n <= |ws|
    ensures forall i :: 0 <= i < |Rows(ws, n)| ==> RowWithin(Rows(ws, n)[i], ws)
  {
    if n > 0 {
      RowsElements(ws, n - 1);
      var prev := Rows(ws, n - 1);
      var w := ws[n - 1];
      var cur := prev[|prev| - 1];
      var rows := Rows(ws, n);
      assert w in ws;
      if Breaks(Sum(cur), w) {
        assert rows == prev + [[w]];
        assert RowWithin([w], ws);
        forall i | 0 <= i < |rows| ensures RowWithin(rows[i], ws) {
          if i < |prev| { assert rows[i] == prev[i]; }
        }
      } else {
        assert rows == prev[|prev| - 1 := cur + [w]];
        assert RowWithin(cur, ws);
        assert RowWithin(cur + [w], ws);
        forall i | 0 <= i < |rows| ensures RowWithin(rows[i], ws) {
          if i < |prev| - 1 { assert rows[i] == prev[i]; }
        }
      }
    }
  }

  // ------------------------------------------------------------ the tree

  /** A module doc as the package layout sees it: a unique id, the canonical
      dotted name, whether it is a package, and its submodules in order. */
  datatype ModuleDoc = ModuleDoc(id: nat, name: seq<string>, isPackage: bool, submodules: seq<ModuleDoc>)

  /** `pkg_name[-1]` (a dotted name always has at least one piece). */
  function LastName(name: seq<string>): string {
    if name == [] then "" else name[|name| - 1]
  }

  predicate IsLeaf(p: ModuleDoc) {
    !p.isPackage || |p.submodules| == 0
  }

  function SelfWidth(p: ModuleDoc): nat {
    |LastName(p.name)| + 3
  }

  function MaxOf(xs: seq<nat>): (m: nat)
    ensures forall i :: 0 <= i < |xs| ==> xs[i] <= m
    ensures xs != [] ==> exists i :: 0 <= i < |xs| && xs[i] == m
    ensures xs == [] ==> m == 0
  {
    if xs == [] then 0
    else
      var m := MaxOf(xs[..|xs| - 1]);
      if xs[|xs| - 1] > m then xs[|xs| - 1] else m
  }

  /** The depth the layout reports. */
  function Depth(p: ModuleDoc): (d: nat)
    ensures d >= 1
    decreases p, 1
  {
    if IsLeaf(p) then 1 else 1 + MaxOf(ChildDepths(p, |p.submodules|))
  }

  /** The depths of the first n submodules. */
  function ChildDepths(p: ModuleDoc, n: nat): (r: seq<nat>)
    requires n <= |p.submodules|
    ensures |r| == n
    decreases p, 0, n
  {
    if n == 0 then [] else ChildDepths(p, n - 1) + [Depth(p.submodules[n - 1])]
  }

  lemma {:induction false} ChildDepthsAt(p: ModuleDoc, n: nat, k: nat)
    requires k < n <= |p.submodules|
    ensures ChildDepths(p, n)[k] == Depth(p.submodules[k])
    decreases n
  {
    if k < n - 1 { ChildDepthsAt(p, n - 1, k); }
  }

  /** The widths of the first n submodules. */
  function ChildWidths(p: ModuleDoc, n: nat): (r: seq<nat>)
    requires n <= |p.submodules|
    ensures |r| == n
    decreases p, 0, n
  {
    if n == 0 then [] else ChildWidths(p, n - 1) + [Width(p.submodules[n - 1])]
  }

  lemma {:induction false} ChildWidthsAt(p: ModuleDoc, n: nat, k: nat)
    requires k < n <= |p.submodules|
    ensures ChildWidths(p, n)[k] == Width(p.submodules[k])
    decreases n
  {
    if k < n - 1 { ChildWidthsAt(p, n - 1, k); }
  }

  /** The width the layout reports. */
  function Width(p: ModuleDoc): nat
    decreases p, 1
  {
    if IsLeaf(p) then SelfWidth(p)
    else
      var n := |p.submodules|;
      var widest := MaxOf(RowWidths(ChildWidths(p, n), n));
      if widest > SelfWidth(p) then widest else SelfWidth(p)
  }

  /** A box has depth 1 exactly when it is a leaf; every other box is one
      level deeper than its deepest submodule. */
  lemma DepthShape(p: ModuleDoc)
    ensures Depth(p) == 1 <==> IsLeaf(p)
    ensures !IsLeaf(p) ==>
              (forall c :: c in p.submodules ==> Depth(c) < Depth(p)) &&
              (exists c :: c in p.submodules && Depth(c) == Depth(p) - 1)
  {
    if !IsLeaf(p) {
      var n := |p.submodules|;
      var ds := ChildDepths(p, n);
      var i :| 0 <= i < n && ds[i] == MaxOf(ds);
      ChildDepthsAt(p, n, i);
      assert p.submodules[i] in p.submodules;
      forall c | c in p.submodules ensures Depth(c) < Depth(p) {
        var j :| 0 <= j < n && p.submodules[j] == c;
        ChildDepthsAt(p, n, j);
      }
    }
  }

  /** One box never narrows a row, and the row it lands on is at least as
      wide as the box. */
  lemma WidthStepGrows(rw: seq<nat>, w: nat)
    requires |rw| >= 1
    ensures |rw| <= |WidthStep(rw, w)|
    ensures forall j :: 0 <= j < |rw| ==> rw[j] <= WidthStep(rw, w)[j]
    ensures w <= WidthStep(rw, w)[|WidthStep(rw, w)| - 1]
  {
  }

  /** Every box lies in a row at least as wide as the box. */
  lemma {:induction false} RowWidthsCover(ws: seq<nat>, n: nat, k: nat)
    requires k < n <= |ws|
    ensures exists j :: 0 <= j < |RowWidths(ws, n)| && ws[k] <= RowWidths(ws, n)[j]
  {
    var prev := RowWidths(ws, n - 1);
    var rw := RowWidths(ws, n);
    WidthStepGrows(prev, ws[n - 1]);
    if k == n - 1 {
      assert ws[k] <= rw[|rw| - 1];
    } else {
      RowWidthsCover(ws, n - 1, k);
      var j :| 0 <= j < |prev| && ws[k] <= prev[j];
      assert prev[j] <= rw[j];
    }
  }

  /** Every box fits within the widest row. */
  lemma RowWidthsCoverBox(ws: seq<nat>, n: nat, k: nat)
    requires k < n <= |ws|
    ensures ws[k] <= MaxOf(RowWidths(ws, n))
  {
    RowWidthsCover(ws, n, k);
  }

  /** A row over the budget holds a single box of any width. */
  lemma OverfullRow(row: seq<nat>, ws: seq<nat>)
    requires RowFits(row) && RowWithin(row, ws) && Sum(row) > MaxRowWidth
    ensures Sum(row) in ws
  {
    var m := |row| - 1;
    LastSplit(row);
    SumSnoc(row[..m], row[m]);
  }

  /** The widest row exceeds the budget only when it is a single box that
      does (any boxes before it have width 0). */
  lemma RowWidthsOverflow(ws: seq<nat>)
    ensures MaxOf(RowWidths(ws, |ws|)) <= MaxRowWidth || MaxOf(RowWidths(ws, |ws|)) in ws
  {
    var n := |ws|;
    var rw := RowWidths(ws, n);
    var widest := MaxOf(rw);
    if widest > MaxRowWidth {
      var i :| 0 <= i < |rw| && rw[i] == widest;
      RowWidthsAreSums(ws, n);
      RowsFit(ws, n);
      RowsElements(ws, n);
      OverfullRow(Rows(ws, n)[i], ws);
    }
  }

  /** The reported width covers the package's own name and every submodule
      box, and exceeds the row budget only as far as the name or a single
      box does. */
  lemma WidthBounds(p: ModuleDoc)
    ensures IsLeaf(p) ==> Width(p) == SelfWidth(p)
    ensures Width(p) >= SelfWidth(p)
    ensures forall c :: c in p.submodules && !IsLeaf(p) ==> Width(c) <= Width(p)
    ensures !IsLeaf(p) ==>
              Width(p) <= MaxRowWidth || Width(p) == SelfWidth(p) ||
              exists c :: c in p.submodules && Width(p) == Width(c)
  {
    if !IsLeaf(p) {
      var n := |p.submodules|;
      var ws := ChildWidths(p, n);
      forall c | c in p.submodules ensures Width(c) <= Width(p) {
        var k :| 0 <= k < n && p.submodules[k] == c;
        ChildWidthsAt(p, n, k);
        RowWidthsCoverBox(ws, n, k);
      }
      RowWidthsOverflow(ws);
      var widest := MaxOf(RowWidths(ws, n));
      if widest > MaxRowWidth {
        var k :| 0 <= k < n && ws[k] == widest;
        ChildWidthsAt(p, n, k);
        assert p.submodules[k] in p.submodules;
      }
    }
  }

  // ------------------------------------------------------------ the label

  /** `linker.url_for(package) or NOOP_URL`. */
  function PackageUrl(url: Option<string>): string {
    if url.Some? && url.value != "" then url.value else NoopUrl
  }

  /** A box template: its text before, between and after its five `%s`
      directives. */
  datatype Template = Template(t0: string, t1: string, t2: string, t3: string, t4: string, t5: string) {
    function Pieces(): seq<string> { [t0, t1, t2, t3, t4, t5] }
  }

  /** The two box templates.  The layout functions take them as a value, so
      that reasoning about the layout does not depend on the template text;
      `UmlMarkup` holds the ones the graph uses. */
  datatype Markup = Markup(moduleNode: Template, package: Template)

  /** `MODULE_NODE_HTML` (after `strip()`), the box of a module without
      submodules. */
  const ModuleNodeTemplate: Template := Template(
    "<TABLE BORDER=\"0\" CELLBORDER=\"0\" CELLSPACING=\"0\"\n" +
    "         CELLPADDING=\"0\" PORT=\"table\" ALIGN=\"LEFT\">\n" +
    "  <TR><TD ALIGN=\"LEFT\" VALIGN=\"BOTTOM\" HEIGHT=\"8\" WIDTH=\"16\" FIXEDSIZE=\"true\"\n" +
    "          BGCOLOR=\"",
    "\" BORDER=\"1\" PORT=\"tab\"></TD></TR>\n" +
    "  <TR><TD ALIGN=\"LEFT\" VALIGN=\"TOP\" BGCOLOR=\"",
    "\" BORDER=\"1\"\n" +
    "          PORT=\"body\" HREF=\"",
    "\" TOOLTIP=\"",
    "\">",
    "</TD></TR>\n" +
    "  </TABLE>")

  /** The box of a package around the body of rows. */
  const PackageTemplate: Template := Template(
    "<TABLE BORDER=\"0\" CELLBORDER=\"0\" CELLSPACING=\"0\"><TR>" +
    "<TD ALIGN=\"LEFT\" HEIGHT=\"8\" WIDTH=\"16\" FIXEDSIZE=\"true\" " +
    "BORDER=\"1\" VALIGN=\"BOTTOM\" BGCOLOR=\"",
    "\"></TD></TR><TR>" +
    "<TD COLSPAN=\"5\" VALIGN=\"TOP\" ALIGN=\"LEFT\" BORDER=\"1\" " +
    "BGCOLOR=\"",
    "\" HREF=\"",
    "\" TOOLTIP=\"",
    "\">",
    "</TD></TR></TABLE>")

  const UmlMarkup: Markup := Markup(ModuleNodeTemplate, PackageTemplate)

  function ModuleNodeHtml(m: Markup, color: string, url: string, tooltip: string, last: string): string {
    Interleave(m.moduleNode.Pieces(), [color, color, url, tooltip, last])
  }

  function PackageHtml(m: Markup, color: string, url: string, tooltip: string, body: string): string {
    Interleave(m.package.Pieces(), [color, color, url, tooltip, body])
  }

  /** `ROW_HDR`. */
  const RowHeader: string := "<TABLE BORDER=\"0\" CELLBORDER=\"0\"><TR>"
  /** What a row break appends to the body. */
  const RowBreak: string := "</TR></TABLE></TD></TR>" + "<TR><TD>" + RowHeader
  const BodyFooter: string := "</TR></TABLE></TD></TR></TABLE>"

  /** The start of the body: the package's own name, then the first row. */
  function BodyHeader(last: string): string {
    "<TABLE BORDER=\"0\" CELLBORDER=\"0\">" +
    Interleave(["<TR><TD ALIGN=\"LEFT\">", "</TD></TR>"], [last]) +
    "<TR><TD>" + RowHeader
  }

  /** The cell of one submodule box in the current row. */
  function Cell(html: string): string {
    "<TD ALIGN=\"LEFT\">" + html + "</TD>"
  }

  /** The state of the row loop: the body built so far and `row_width`. */
  datatype RowState = RowState(cells: string, widths: seq<nat>)

  /** One iteration of the row loop: a box that does not fit the current
      row closes it and opens a new one; then the box's cell is appended and
      its width added to the last row (`WidthStep`). */
  function Place(st: RowState, box: string, w: nat): (r: RowState)
    requires |st.widths| >= 1
    ensures |r.widths| >= 1
  {
    var body := if Breaks(st.widths[|st.widths| - 1], w) then st.cells + RowBreak else st.cells;
    RowState(body + Cell(box), WidthStep(st.widths, w))
  }

  /** The row loop after the first n boxes. */
  function Layout(labels: seq<string>, ws: seq<nat>, n: nat): (r: RowState)
    requires n <= |labels| == |ws|
    ensures |r.widths| >= 1
  {
    if n == 0 then RowState("", [0]) else Place(Layout(labels, ws, n - 1), labels[n - 1], ws[n - 1])
  }

  /** The widths the row loop keeps are the label-free fold `RowWidths`, so
      they are the sums of the greedy rows. */
  lemma {:induction false} LayoutWidths(labels: seq<string>, ws: seq<nat>, n: nat)
    requires n <= |labels| == |ws|
    ensures Layout(labels, ws, n).widths == RowWidths(ws, n)
  {
    if n > 0 {
      LayoutWidths(labels, ws, n - 1);
    }
  }

  /** The label the layout builds. */
  function Label(p: ModuleDoc, m: Markup, urlFor: seq<string> -> Option<string>, context: Option<nat>): string
    decreases p, 1
  {
    var url := PackageUrl(urlFor(p.name));
    var tooltip := Join(p.name, ".");
    if IsLeaf(p) then
      ModuleNodeHtml(m, PackageColor(context == Some(p.id), 1), url, tooltip, LastName(p.name))
    else
      var n := |p.submodules|;
      var body := BodyHeader(LastName(p.name)) + Layout(ChildLabels(p, m, urlFor, context, n), ChildWidths(p, n), n).cells + BodyFooter;
      PackageHtml(m, PackageColor(context == Some(p.id), Depth(p)), url, tooltip, body)
  }

  /** The labels of the first n submodules. */
  function ChildLabels(p: ModuleDoc, m: Markup, urlFor: seq<string> -> Option<string>, context: Option<nat>, n: nat): (r: seq<string>)
    requires n <= |p.submodules|
    ensures |r| == n
    decreases p, 0, n
  {
    if n == 0 then [] else ChildLabels(p, m, urlFor, context, n - 1) + [Label(p.submodules[n - 1], m, urlFor, context)]
  }

  /** `_nested_uml_package_label`: the label, depth and width of a package box. */
  method NestedLabel(p: ModuleDoc, m: Markup, urlFor: seq<string> -> Option<string>, context: Option<nat>)
    returns (html: string, depth: nat, width: nat)
    ensures html == Label(p, m, urlFor, context)
    ensures depth == Depth(p) && width == Width(p)
    decreases p, 2
  {
    var url := PackageUrl(urlFor(p.name));
    var tooltip := Join(p.name, ".");
    if IsLeaf(p) {
      var color := PackageColor(context == Some(p.id), 1);
      return ModuleNodeHtml(m, color, url, tooltip, LastName(p.name)), 1, SelfWidth(p);
    }
    var n := |p.submodules|;
    var labels, depths, widths := SubmoduleLabels(p, m, urlFor, context);
    var cells, rowWidth := LayoutRows(labels, widths);
    var body := BodyHeader(LastName(p.name)) + cells + BodyFooter;
    depth := MaxOf(depths) + 1;
    assert depth == Depth(p);
    var color := PackageColor(context == Some(p.id), depth);
    assert body == BodyHeader(LastName(p.name)) + Layout(ChildLabels(p, m, urlFor, context, n), ChildWidths(p, n), n).cells + BodyFooter;
    html := PackageHtml(m, color, url, tooltip, body);
    var widest := MaxOf(rowWidth);
    width := if widest > SelfWidth(p) then widest else SelfWidth(p);
  }

  /** One element of the comprehension: the box of the i-th submodule. */
  method SubmoduleLabel(p: ModuleDoc, m: Markup, urlFor: seq<string> -> Option<string>, context: Option<nat>, i: nat)
    returns (l: string, d: nat, w: nat)
    requires i < |p.submodules|
    ensures ChildLabels(p, m, urlFor, context, i + 1) == ChildLabels(p, m, urlFor, context, i) + [l]
    ensures ChildDepths(p, i + 1) == ChildDepths(p, i) + [d]
    ensures ChildWidths(p, i + 1) == ChildWidths(p, i) + [w]
    decreases p, 0
  {
    l, d, w := NestedLabel(p.submodules[i], m, urlFor, context);
  }

  /** `submodule_labels = [_nested_uml_package_label(s, ...) for s in package.submodules]`. */
  method SubmoduleLabels(p: ModuleDoc, m: Markup, urlFor: seq<string> -> Option<string>, context: Option<nat>)
    returns (labels: seq<string>, depths: seq<nat>, widths: seq<nat>)
    ensures labels == ChildLabels(p, m, urlFor, context, |p.submodules|)
    ensures depths == ChildDepths(p, |p.submodules|)
    ensures widths == ChildWidths(p, |p.submodules|)
    decreases p, 1
  {
    labels, depths, widths := [], [], [];
    for i := 0 to |p.submodules|
      invariant labels == ChildLabels(p, m, urlFor, context, i)
      invariant depths == ChildDepths(p, i)
      invariant widths == ChildWidths(p, i)
    {
      var l, d, w := SubmoduleLabel(p, m, urlFor, context, i);
      labels := labels + [l];
      depths := depths + [d];
      widths := widths + [w];
    }
  }

  /** The row loop: the cells with their row breaks, and `row_width`. */
  method LayoutRows(labels: seq<string>, widths: seq<nat>) returns (cells: string, rowWidth: seq<nat>)
    requires |labels| == |widths|
    ensures RowState(cells, rowWidth) == Layout(labels, widths, |widths|)
    ensures rowWidth == RowWidths(widths, |widths|)
  {
    cells := "";
    rowWidth := [0];
    for i := 0 to |labels|
      invariant RowState(cells, rowWidth) == Layout(labels, widths, i)
    {
      var next := Place(RowState(cells, rowWidth), labels[i], widths[i]);
      cells, rowWidth := next.cells, next.widths;
    }
    LayoutWidths(labels, widths, |widths|);
  }
}
