/** Properties of the table-to-graph converter. */
module DataConversionLemmas {
  import opened JsValues
  import opened DataConversion

  // ---------------------------------------------------------------------------
  // Role resolution

  lemma {:induction false} AssignRolesEffect(colMap: map<string, nat>, roles: seq<string>, i: nat, role: string)
    ensures role in AssignRoles(colMap, roles, i) <==> role in colMap || role in roles
    ensures role in roles ==> AssignRoles(colMap, roles, i)[role] == i
    ensures role in colMap && role !in roles ==> AssignRoles(colMap, roles, i)[role] == colMap[role]
  {
    if roles != [] {
      var init := roles[..|roles| - 1];
      AssignRolesEffect(colMap, init, i, role);
      assert roles == init + [roles[|roles| - 1]];
    }
  }

  /** A role maps to the last column declaring it, and is absent when no column does. */
  lemma {:induction false} RoleMapLastWins(columns: seq<Column>, role: string)
    ensures role in RoleMap(columns) <==> exists i :: 0 <= i < |columns| && role in columns[i].roles
    ensures role in RoleMap(columns) ==>
      && RoleMap(columns)[role] < |columns|
      && role in columns[RoleMap(columns)[role]].roles
      && forall j :: RoleMap(columns)[role] < j < |columns| ==> role !in columns[j].roles
  {
    if columns != [] {
      var last := |columns| - 1;
      var init := columns[..last];
      RoleMapLastWins(init, role);
      AssignRolesEffect(RoleMap(init), columns[last].roles, last, role);
      if role in RoleMap(init) {
        var i :| 0 <= i < |init| && role in init[i].roles;
        assert role in columns[i].roles;
      }
    }
  }

  // ---------------------------------------------------------------------------
  // Rows

  /** A row whose source or target cell is falsy leaves the arena as it is. */
  lemma RowSkipped(ctx: Context, a: Arena, row: seq<Cell>)
    requires WellFormed(a) && !RowKept(ctx, row)
    ensures AddRow(ctx, a, row) == a
  {
  }

  /** Any other row appends exactly one link, from the node named by its source
      cell to the node named by its target cell, carrying the row's edge values. */
  lemma RowAddsOneLink(ctx: Context, a: Arena, row: seq<Cell>)
    requires WellFormed(a) && RowKept(ctx, row)
    ensures var r := AddRow(ctx, a, row);
      && |r.links| == |a.links| + 1
      && r.links[..|a.links|] == a.links
      && var l := r.links[|a.links|];
      && l.source < |r.nodes| && r.nodes[l.source].name == SourceId(ctx, row)
      && l.target < |r.nodes| && r.nodes[l.target].name == TargetId(ctx, row)
      && l.value == CellAt(row, ctx.cols.edgeValue)
      && l.colorValue == CellAt(row, ctx.cols.edgeColorValue)
  {
    var cols := ctx.cols;
    var (a1, s) := LookupOrCreate(a, ctx.sourceField, SourceId(ctx, row),
      CellAt(row, cols.sourceNodeWeight), CellAt(row, cols.sourceColor), CellAt(row, cols.sourceLabelColor));
    var (a2, t) := LookupOrCreate(a1, ctx.targetField, TargetId(ctx, row),
      CellAt(row, cols.targetNodeWeight), CellAt(row, cols.targetColor), CellAt(row, cols.targetLabelColor));
    assert a1.nodes[s] == a2.nodes[s];
    var r := AddRow(ctx, a, row);
    assert r == Connect(a2, Link(s, t, CellAt(row, cols.edgeValue), CellAt(row, cols.edgeColorValue)));
  }

  /** With two ids never seen before, the source node is created first and gets
      the smaller index; a row naming one new id on both sides creates one node
      whose neighbour count is 3. */
  lemma SourceBeforeTarget(ctx: Context, a: Arena, row: seq<Cell>)
    requires WellFormed(a) && RowKept(ctx, row)
    requires SourceId(ctx, row) !in a.ids && TargetId(ctx, row) !in a.ids
    ensures var r := AddRow(ctx, a, row); var n := |a.nodes|;
      && |r.links| == |a.links| + 1
      && r.links[|a.links|].source == n
      && if SourceId(ctx, row) == TargetId(ctx, row) then
           |r.nodes| == n + 1 && r.links[|a.links|].target == n && r.nodes[n].neighbors == 3
         else
           |r.nodes| == n + 2 && r.links[|a.links|].target == n + 1
  {
    var cols := ctx.cols;
    var (a1, s) := LookupOrCreate(a, ctx.sourceField, SourceId(ctx, row),
      CellAt(row, cols.sourceNodeWeight), CellAt(row, cols.sourceColor), CellAt(row, cols.sourceLabelColor));
    var n := |a.nodes|;
    assert a1.nodes[n].neighbors == 1 && EndpointCount(a1.links, n) == 0;
    RowAddsOneLink(ctx, a, row);
  }

  /** `b` grew from `a` only by new nodes and larger neighbour counts: every node
      of `a` keeps its place and all its other attributes, and every id keeps its index. */
  ghost predicate KeepsNodes(a: Arena, b: Arena)
  {
    && |a.nodes| <= |b.nodes|
    && (forall k :: 0 <= k < |a.nodes| ==> b.nodes[k] == a.nodes[k].(neighbors := b.nodes[k].neighbors))
    && (forall id :: id in a.ids ==> id in b.ids && b.ids[id] == a.ids[id])
  }

  lemma KeepsNodesTransitive(a: Arena, b: Arena, c: Arena)
    requires KeepsNodes(a, b) && KeepsNodes(b, c)
    ensures KeepsNodes(a, c)
  {
    forall k | 0 <= k < |a.nodes|
      ensures c.nodes[k] == a.nodes[k].(neighbors := c.nodes[k].neighbors)
    {
      assert b.nodes[k] == a.nodes[k].(neighbors := b.nodes[k].neighbors);
    }
  }

  lemma LookupOrCreateKeepsNodes(a: Arena, field: FieldRef, id: string, nodeWeight: Cell, color: Cell, labelColor: Cell)
    requires WellFormed(a)
    ensures KeepsNodes(a, LookupOrCreate(a, field, id, nodeWeight, color, labelColor).0)
  {
    var r := LookupOrCreate(a, field, id, nodeWeight, color, labelColor).0;
    forall k | 0 <= k < |a.nodes|
      ensures r.nodes[k] == a.nodes[k]
    {
      assert r.nodes[k] == r.nodes[..|a.nodes|][k];
    }
  }

  lemma ConnectKeepsNodes(a: Arena, l: Link)
    requires WellFormed(a) && l.source < |a.nodes| && l.target < |a.nodes|
    ensures KeepsNodes(a, Connect(a, l))
  {
    var b := Connect(a, l);
    forall k | 0 <= k < |a.nodes|
      ensures b.nodes[k] == a.nodes[k].(neighbors := b.nodes[k].neighbors)
    {
      var once := Bump(a.nodes, l.source);
      assert once[k] == a.nodes[k].(neighbors := once[k].neighbors);
    }
  }

  lemma AddRowKeepsNodes(ctx: Context, a: Arena, row: seq<Cell>)
    requires WellFormed(a)
    ensures KeepsNodes(a, AddRow(ctx, a, row))
  {
    if RowKept(ctx, row) {
      var cols := ctx.cols;
      var (a1, s) := LookupOrCreate(a, ctx.sourceField, SourceId(ctx, row),
        CellAt(row, cols.sourceNodeWeight), CellAt(row, cols.sourceColor), CellAt(row, cols.sourceLabelColor));
      var (a2, t) := LookupOrCreate(a1, ctx.targetField, TargetId(ctx, row),
        CellAt(row, cols.targetNodeWeight), CellAt(row, cols.targetColor), CellAt(row, cols.targetLabelColor));
      LookupOrCreateKeepsNodes(a, ctx.sourceField, SourceId(ctx, row),
        CellAt(row, cols.sourceNodeWeight), CellAt(row, cols.sourceColor), CellAt(row, cols.sourceLabelColor));
      LookupOrCreateKeepsNodes(a1, ctx.targetField, TargetId(ctx, row),
        CellAt(row, cols.targetNodeWeight), CellAt(row, cols.targetColor), CellAt(row, cols.targetLabelColor));
      var l := Link(s, t, CellAt(row, cols.edgeValue), CellAt(row, cols.edgeColorValue));
      ConnectKeepsNodes(a2, l);
      KeepsNodesTransitive(a, a1, a2);
      KeepsNodesTransitive(a, a2, Connect(a2, l));
    }
  }

  /** Rows never rewrite a node once it exists: the arena built from a prefix of
      the rows survives, attribute for attribute, in the arena built from all of them. */
  lemma {:induction false} AddRowsKeepsNodes(ctx: Context, rows: seq<seq<Cell>>, i: nat)
    requires i <= |rows|
    ensures KeepsNodes(AddRows(ctx, rows[..i]), AddRows(ctx, rows))
  {
    if i == |rows| {
      assert rows[..i] == rows;
    } else {
      var init := rows[..|rows| - 1];
      AddRowsKeepsNodes(ctx, init, i);
      assert init[..i] == rows[..i];
      AddRowKeepsNodes(ctx, AddRows(ctx, init), rows[|rows| - 1]);
      KeepsNodesTransitive(AddRows(ctx, rows[..i]), AddRows(ctx, init), AddRows(ctx, rows));
    }
  }

  /** The first row that names an id fixes that node's colour (default "gray"),
      label colour and value; later rows naming the same id change none of them. */
  lemma FirstOccurrenceFixesAttributes(ctx: Context, rows: seq<seq<Cell>>, i: nat)
    requires i < |rows| && RowKept(ctx, rows[i])
    requires SourceId(ctx, rows[i]) !in AddRows(ctx, rows[..i]).ids
    ensures var a := AddRows(ctx, rows); var id := SourceId(ctx, rows[i]);
      && id in a.ids
      && a.nodes[a.ids[id]].color == ColorOrDefault(CellAt(rows[i], ctx.cols.sourceColor))
      && a.nodes[a.ids[id]].labelColor == CellAt(rows[i], ctx.cols.sourceLabelColor)
      && a.nodes[a.ids[id]].value == CellAt(rows[i], ctx.cols.sourceNodeWeight)
  {
    var before := AddRows(ctx, rows[..i]);
    var row := rows[i];
    assert rows[..i + 1][..i] == rows[..i];
    var after := AddRows(ctx, rows[..i + 1]);
    assert after == AddRow(ctx, before, row);
    var cols := ctx.cols;
    var n := |before.nodes|;
    var (a1, s) := LookupOrCreate(before, ctx.sourceField, SourceId(ctx, row),
      CellAt(row, cols.sourceNodeWeight), CellAt(row, cols.sourceColor), CellAt(row, cols.sourceLabelColor));
    assert a1.nodes[n] == NewNode(ctx.sourceField, SourceId(ctx, row), n,
      CellAt(row, cols.sourceNodeWeight), CellAt(row, cols.sourceColor), CellAt(row, cols.sourceLabelColor));
    var (a2, t) := LookupOrCreate(a1, ctx.targetField, TargetId(ctx, row),
      CellAt(row, cols.targetNodeWeight), CellAt(row, cols.targetColor), CellAt(row, cols.targetLabelColor));
    LookupOrCreateKeepsNodes(a1, ctx.targetField, TargetId(ctx, row),
      CellAt(row, cols.targetNodeWeight), CellAt(row, cols.targetColor), CellAt(row, cols.targetLabelColor));
    var l := Link(s, t, CellAt(row, cols.edgeValue), CellAt(row, cols.edgeColorValue));
    ConnectKeepsNodes(a2, l);
    KeepsNodesTransitive(a1, a2, after);
    AddRowsKeepsNodes(ctx, rows, i + 1);
  }

  /** Symmetrically, the first row that names an id in its target cell (and not
      also in its source cell) fixes that node's colour, label colour and value
      from the row's target columns. */
  lemma FirstOccurrenceFixesTargetAttributes(ctx: Context, rows: seq<seq<Cell>>, i: nat)
    requires i < |rows| && RowKept(ctx, rows[i])
    requires TargetId(ctx, rows[i]) !in AddRows(ctx, rows[..i]).ids
    requires TargetId(ctx, rows[i]) != SourceId(ctx, rows[i])
    ensures var a := AddRows(ctx, rows); var id := TargetId(ctx, rows[i]);
      && id in a.ids
      && a.nodes[a.ids[id]].color == ColorOrDefault(CellAt(rows[i], ctx.cols.targetColor))
      && a.nodes[a.ids[id]].labelColor == CellAt(rows[i], ctx.cols.targetLabelColor)
      && a.nodes[a.ids[id]].value == CellAt(rows[i], ctx.cols.targetNodeWeight)
  {
    var before := AddRows(ctx, rows[..i]);
    var row := rows[i];
    assert rows[..i + 1][..i] == rows[..i];
    var after := AddRows(ctx, rows[..i + 1]);
    assert after == AddRow(ctx, before, row);
    var cols := ctx.cols;
    var (a1, s) := LookupOrCreate(before, ctx.sourceField, SourceId(ctx, row),
      CellAt(row, cols.sourceNodeWeight), CellAt(row, cols.sourceColor), CellAt(row, cols.sourceLabelColor));
    assert TargetId(ctx, row) !in a1.ids;
    var m := |a1.nodes|;
    var (a2, t) := LookupOrCreate(a1, ctx.targetField, TargetId(ctx, row),
      CellAt(row, cols.targetNodeWeight), CellAt(row, cols.targetColor), CellAt(row, cols.targetLabelColor));
    assert a2.nodes[m] == NewNode(ctx.targetField, TargetId(ctx, row), m,
      CellAt(row, cols.targetNodeWeight), CellAt(row, cols.targetColor), CellAt(row, cols.targetLabelColor));
    var l := Link(s, t, CellAt(row, cols.edgeValue), CellAt(row, cols.edgeColorValue));
    ConnectKeepsNodes(a2, l);
    AddRowsKeepsNodes(ctx, rows, i + 1);
    KeepsNodesTransitive(a2, after, AddRows(ctx, rows));
  }

  /** A row adds to the id table exactly the ids of its source and target cells, if kept. */
  lemma AddRowIds(ctx: Context, a: Arena, row: seq<Cell>, id: string)
    requires WellFormed(a)
    ensures id in AddRow(ctx, a, row).ids <==>
      id in a.ids || (RowKept(ctx, row) && (id == SourceId(ctx, row) || id == TargetId(ctx, row)))
  {
    if RowKept(ctx, row) {
      var cols := ctx.cols;
      var (a1, s) := LookupOrCreate(a, ctx.sourceField, SourceId(ctx, row),
        CellAt(row, cols.sourceNodeWeight), CellAt(row, cols.sourceColor), CellAt(row, cols.sourceLabelColor));
      var (a2, t) := LookupOrCreate(a1, ctx.targetField, TargetId(ctx, row),
        CellAt(row, cols.targetNodeWeight), CellAt(row, cols.targetColor), CellAt(row, cols.targetLabelColor));
      assert AddRow(ctx, a, row).ids == a2.ids;
    }
  }

  /** The node ids are exactly the stringified source and target cells of the
      rows that were not skipped. */
  lemma {:induction false} AddRowsIds(ctx: Context, rows: seq<seq<Cell>>, id: string)
    ensures id in AddRows(ctx, rows).ids <==>
      exists i :: 0 <= i < |rows| && RowKept(ctx, rows[i]) && (id == SourceId(ctx, rows[i]) || id == TargetId(ctx, rows[i]))
  {
    if rows != [] {
      var init := rows[..|rows| - 1];
      var row := rows[|rows| - 1];
      AddRowsIds(ctx, init, id);
      AddRowIds(ctx, AddRows(ctx, init), row, id);
      if id in AddRows(ctx, init).ids {
        var i :| 0 <= i < |init| && RowKept(ctx, init[i]) && (id == SourceId(ctx, init[i]) || id == TargetId(ctx, init[i]));
        assert rows[i] == init[i];
      }
      if exists i :: 0 <= i < |rows| && RowKept(ctx, rows[i]) && (id == SourceId(ctx, rows[i]) || id == TargetId(ctx, rows[i])) {
        var i :| 0 <= i < |rows| && RowKept(ctx, rows[i]) && (id == SourceId(ctx, rows[i]) || id == TargetId(ctx, rows[i]));
        if i < |init| {
          assert init[i] == rows[i];
        }
      }
    }
  }

  // ---------------------------------------------------------------------------
  // The converted graph

  /** A graph whose node names are unique, whose nodes sit at their own index and
      whose links point at existing nodes. */
  ghost predicate Consistent(g: Graph)
  {
    && (forall i, j :: 0 <= i < j < |g.nodes| ==> g.nodes[i].name != g.nodes[j].name)
    && (forall k :: 0 <= k < |g.nodes| ==> g.nodes[k].index == k)
    && (forall l :: l in g.links ==> l.source < |g.nodes| && l.target < |g.nodes|)
  }

  lemma WellFormedNamesUnique(a: Arena)
    requires WellFormed(a)
    ensures forall i, j :: 0 <= i < j < |a.nodes| ==> a.nodes[i].name != a.nodes[j].name
  {
    forall i, j | 0 <= i < j < |a.nodes|
      ensures a.nodes[i].name != a.nodes[j].name
    {
      assert a.ids[a.nodes[i].name] == i && a.ids[a.nodes[j].name] == j;
    }
  }

  /** The link filter distributes over concatenation: the links kept from a
      list are those kept from each part, in the same order. */
  lemma {:induction false} KeepLinksBelowConcat(xs: seq<Link>, ys: seq<Link>, n: nat)
    ensures KeepLinksBelow(xs + ys, n) == KeepLinksBelow(xs, n) + KeepLinksBelow(ys, n)
  {
    if ys == [] {
      assert xs + ys == xs;
    } else {
      var init := ys[..|ys| - 1];
      assert (xs + ys)[..|xs + ys| - 1] == xs + init;
      KeepLinksBelowConcat(xs, init, n);
    }
  }

  /** A single link is kept exactly when both its endpoints are below the cap. */
  lemma KeepLinksBelowOne(l: Link, n: nat)
    ensures KeepLinksBelow([l], n) == if l.source < n && l.target < n then [l] else []
  {
    assert [l][..0] == [];
  }

  /** Every kept link keeps its multiplicity; the others are gone. */
  lemma {:induction false} KeepLinksBelowCounts(links: seq<Link>, n: nat, l: Link)
    ensures multiset(KeepLinksBelow(links, n))[l]
         == if l.source < n && l.target < n then multiset(links)[l] else 0
  {
    if links != [] {
      var init := links[..|links| - 1];
      KeepLinksBelowCounts(init, n, l);
      assert links == init + [links[|links| - 1]];
    }
  }

  /** A filter that every link passes keeps the whole list. */
  lemma {:induction false} KeepLinksBelowAll(links: seq<Link>, n: nat)
    requires forall l :: l in links ==> l.source < n && l.target < n
    ensures KeepLinksBelow(links, n) == links
  {
    if links != [] {
      var init := links[..|links| - 1];
      assert forall l :: l in init ==> l in links;
      KeepLinksBelowAll(init, n);
      assert links == init + [links[|links| - 1]];
    }
  }

  /** After trimming, the links are those of the arena whose endpoints are both
      among the nodes kept, in their original order and with their multiplicity;
      neighbour counts are not recomputed. */
  lemma TrimKeepsLinks(a: Arena, maxNodes: Cell)
    requires WellFormed(a)
    ensures var g := Trim(a, maxNodes);
      && g.links == KeepLinksBelow(a.links, |g.nodes|)
      && forall l :: multiset(g.links)[l]
           == if l.source < |g.nodes| && l.target < |g.nodes| then multiset(a.links)[l] else 0
  {
    var g := Trim(a, maxNodes);
    if !CapApplies(maxNodes) || |a.nodes| <= maxNodes.n {
      KeepLinksBelowAll(a.links, |a.nodes|);
      if CapApplies(maxNodes) {
        KeepLinksBelowAll(a.links, maxNodes.n);
      }
    }
    forall l {
      KeepLinksBelowCounts(a.links, |g.nodes|, l);
    }
  }

  /** Whatever the table and settings, the converted graph is consistent. */
  lemma ConvertConsistent(table: Table, settings: Settings)
    ensures Consistent(Convert(table, settings))
  {
    var a := Build(table);
    var g := Convert(table, settings);
    WellFormedNamesUnique(a);
    assert forall k :: 0 <= k < |g.nodes| ==> g.nodes[k] == a.nodes[k];
  }

  /** Every node's neighbour count is 1 plus the link endpoints referring to it,
      counted over the links before trimming (a self-loop counts twice). */
  lemma ConvertNeighbors(table: Table, settings: Settings)
    ensures var a := Build(table); var g := Convert(table, settings);
      forall k :: 0 <= k < |g.nodes| ==> g.nodes[k].neighbors == 1 + EndpointCount(a.links, k)
  {
  }

  /** Without both a source and a target identity field the graph is empty. */
  lemma ConvertWithoutIdentityFields(table: Table, settings: Settings)
    requires var cols := ResolveColumns(RoleMap(table.columns));
      FieldAt(table.identityFields, cols.source).None? || FieldAt(table.identityFields, cols.target).None?
    ensures Convert(table, settings) == Graph([], [])
  {
  }

  // ---------------------------------------------------------------------------
  // The id table as written

  /** Off the inherited member names, the row step as written is the model's row step. */
  lemma GetNodeAsWrittenAgrees(a: Arena, field: FieldRef, id: string, nodeWeight: Cell, color: Cell, labelColor: Cell)
    requires WellFormed(a) && id !in ObjectPrototypeMembers
    ensures var r := LookupOrCreate(a, field, id, nodeWeight, color, labelColor);
      GetNodeAsWritten(a, field, id, nodeWeight, color, labelColor) == (r.0, Some(r.1))
  {
  }

  lemma AsWrittenAgreesOffPrototypeNames(ctx: Context, a: Arena, row: seq<Cell>)
    requires WellFormed(a)
    requires SourceId(ctx, row) !in ObjectPrototypeMembers && TargetId(ctx, row) !in ObjectPrototypeMembers
    ensures AddRowAsWritten(ctx, a, row) == Some(AddRow(ctx, a, row))
  {
    if RowKept(ctx, row) {
      var cols := ctx.cols;
      var (a1, s) := LookupOrCreate(a, ctx.sourceField, SourceId(ctx, row),
        CellAt(row, cols.sourceNodeWeight), CellAt(row, cols.sourceColor), CellAt(row, cols.sourceLabelColor));
      GetNodeAsWrittenAgrees(a, ctx.sourceField, SourceId(ctx, row),
        CellAt(row, cols.sourceNodeWeight), CellAt(row, cols.sourceColor), CellAt(row, cols.sourceLabelColor));
      GetNodeAsWrittenAgrees(a1, ctx.targetField, TargetId(ctx, row),
        CellAt(row, cols.targetNodeWeight), CellAt(row, cols.targetColor), CellAt(row, cols.targetLabelColor));
    }
  }

  /** A row whose source cell is "toString" aborts the conversion as written,
      where the intended step adds the nodes "toString" and "B" and a link between them. */
  lemma PrototypeNameAborts()
    ensures var ctx := Context(RoleColumns(Some(0), Some(1), None, None, None, None, None, None, None, None),
                               FieldRef("from"), FieldRef("to"));
      var row := [Text("toString"), Text("B")];
      && AddRowAsWritten(ctx, EmptyArena, row).None?
      && AddRow(ctx, EmptyArena, row).links == [Link(0, 1, Undefined, Undefined)]
      && AddRow(ctx, EmptyArena, row).nodes[0].name == "toString"
  {
    var ctx := Context(RoleColumns(Some(0), Some(1), None, None, None, None, None, None, None, None),
                       FieldRef("from"), FieldRef("to"));
    var row := [Text("toString"), Text("B")];
    assert RowKept(ctx, row) && SourceId(ctx, row) == "toString" && TargetId(ctx, row) == "B";
    assert NodeMapGet(map[], "toString") == Inherited;
    var (a1, s) := GetNodeAsWritten(EmptyArena, ctx.sourceField, "toString", Undefined, Undefined, Undefined);
    assert s == None;
    SourceBeforeTarget(ctx, EmptyArena, row);
    RowAddsOneLink(ctx, EmptyArena, row);
  }
}
