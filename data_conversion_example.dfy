/** A worked conversion: the table with rows (A, B, 1), (A, C, 2), (B, C, 3),
    followed step by step from the role map to the capped graph. */
module DataConversionExample {
  import opened JsValues
  import opened DataConversion

  function ExampleTable(): Table
  {
    Table(
      [Column([SourceRole]), Column([TargetRole]), Column([EdgeValueRole])],
      [Some(FieldRef("from")), Some(FieldRef("to")), None],
      [[Text("A"), Text("B"), Number(1)],
       [Text("A"), Text("C"), Number(2)],
       [Text("B"), Text("C"), Number(3)]])
  }

  function ExampleContext(): Context
  {
    Context(RoleColumns(Some(0), Some(1), None, None, None, None, Some(2), None, None, None),
            FieldRef("from"), FieldRef("to"))
  }

  lemma AssignOneRole(colMap: map<string, nat>, role: string, i: nat)
    ensures AssignRoles(colMap, [role], i) == colMap[role := i]
  {
    assert [role][..0] == [];
  }

  /** Columns declaring source, target and edgeValue map those roles to 0, 1 and 2. */
  lemma ExampleRoleMap()
    ensures RoleMap(ExampleTable().columns) == map[SourceRole := 0, TargetRole := 1, EdgeValueRole := 2]
  {
    var c := ExampleTable().columns;
    assert c[..1][..0] == [];
    assert c[..2][..1] == c[..1];
    assert c[..3] == c;
    AssignOneRole(map[], SourceRole, 0);
    assert RoleMap(c[..1]) == map[SourceRole := 0];
    AssignOneRole(map[SourceRole := 0], TargetRole, 1);
    assert RoleMap(c[..2]) == map[SourceRole := 0, TargetRole := 1];
    AssignOneRole(map[SourceRole := 0, TargetRole := 1], EdgeValueRole, 2);
  }

  /** Both identity fields are present, so the rows are walked with the resolved columns. */
  lemma ExampleRoles()
    ensures Build(ExampleTable()) == AddRows(ExampleContext(), ExampleTable().rows)
  {
    ExampleRoleMap();
    var m := map[SourceRole := 0, TargetRole := 1, EdgeValueRole := 2];
    assert ResolveColumns(m) == ExampleContext().cols;
  }

  /** The node the example creates for `id` at `index`, with `neighbors` as its count. */
  function ExampleNode(field: string, id: string, index: nat, neighbors: nat): Node
  {
    var expr := TextEquals(FieldRef(field), id);
    Node(id, Text(DefaultColor), Undefined, index, expr, Undefined, neighbors, false, SelectionId(expr))
  }

  function LinkAB(): Link { Link(0, 1, Number(1), Undefined) }
  function LinkAC(): Link { Link(0, 2, Number(2), Undefined) }
  function LinkBC(): Link { Link(1, 2, Number(3), Undefined) }

  function IdsAB(): map<string, nat> { map["A" := 0, "B" := 1] }
  function IdsABC(): map<string, nat> { map["A" := 0, "B" := 1, "C" := 2] }

  // The arena at each step of the walk.

  function OnlyA(): Arena
  {
    Arena([ExampleNode("from", "A", 0, 1)], map["A" := 0], [])
  }

  function NodesAB(): Arena
  {
    Arena([ExampleNode("from", "A", 0, 1), ExampleNode("to", "B", 1, 1)], IdsAB(), [])
  }

  function AfterRow1(): Arena
  {
    Arena([ExampleNode("from", "A", 0, 2), ExampleNode("to", "B", 1, 2)], IdsAB(), [LinkAB()])
  }

  function NodesABC(): Arena
  {
    Arena([ExampleNode("from", "A", 0, 2), ExampleNode("to", "B", 1, 2), ExampleNode("to", "C", 2, 1)],
          IdsABC(), [LinkAB()])
  }

  function AfterRow2(): Arena
  {
    Arena([ExampleNode("from", "A", 0, 3), ExampleNode("to", "B", 1, 2), ExampleNode("to", "C", 2, 2)],
          IdsABC(), [LinkAB(), LinkAC()])
  }

  /** Nodes A, B and C and the links A-B, A-C and B-C: the arena the three rows build. */
  function ExampleArena(): Arena
  {
    Arena([ExampleNode("from", "A", 0, 3), ExampleNode("to", "B", 1, 3), ExampleNode("to", "C", 2, 3)],
          IdsABC(), [LinkAB(), LinkAC(), LinkBC()])
  }

  /** What the row loop reads from row `i` of the example table. */
  lemma RowCells(i: nat, source: string, target: string, value: SafeInteger)
    requires i < 3 && ExampleTable().rows[i] == [Text(source), Text(target), Number(value)]
    requires source != "" && target != ""
    ensures var ctx, row := ExampleContext(), ExampleTable().rows[i];
      && RowKept(ctx, row) && SourceId(ctx, row) == source && TargetId(ctx, row) == target
      && CellAt(row, ctx.cols.edgeValue) == Number(value)
      && CellAt(row, ctx.cols.sourceNodeWeight) == CellAt(row, ctx.cols.sourceColor) == Undefined
      && CellAt(row, ctx.cols.sourceLabelColor) == CellAt(row, ctx.cols.targetNodeWeight) == Undefined
      && CellAt(row, ctx.cols.targetColor) == CellAt(row, ctx.cols.targetLabelColor) == Undefined
      && CellAt(row, ctx.cols.edgeColorValue) == Undefined
  {
  }

  lemma CreateA()
    ensures LookupOrCreate(EmptyArena, FieldRef("from"), "A", Undefined, Undefined, Undefined) == (OnlyA(), 0)
  {
  }

  lemma CreateB()
    ensures WellFormed(OnlyA())
    ensures LookupOrCreate(OnlyA(), FieldRef("to"), "B", Undefined, Undefined, Undefined) == (NodesAB(), 1)
  {
    CreateA();
    assert "B" !in OnlyA().ids;
    assert NewNode(FieldRef("to"), "B", 1, Undefined, Undefined, Undefined) == ExampleNode("to", "B", 1, 1);
    assert OnlyA().nodes + [ExampleNode("to", "B", 1, 1)] == NodesAB().nodes;
  }

  lemma ConnectAB()
    requires WellFormed(NodesAB())
    ensures Connect(NodesAB(), LinkAB()) == AfterRow1()
  {
    var once := Bump(NodesAB().nodes, 0);
    assert once == [ExampleNode("from", "A", 0, 2), ExampleNode("to", "B", 1, 1)];
    assert Bump(once, 1) == AfterRow1().nodes;
  }

  lemma Row1()
    ensures AddRow(ExampleContext(), EmptyArena, ExampleTable().rows[0]) == AfterRow1()
  {
    RowCells(0, "A", "B", 1);
    CreateA();
    CreateB();
    ConnectAB();
  }

  lemma CreateC()
    ensures WellFormed(AfterRow1())
    ensures LookupOrCreate(AfterRow1(), FieldRef("from"), "A", Undefined, Undefined, Undefined) == (AfterRow1(), 0)
    ensures LookupOrCreate(AfterRow1(), FieldRef("to"), "C", Undefined, Undefined, Undefined) == (NodesABC(), 2)
  {
    CreateB();
    ConnectAB();
    assert "C" !in AfterRow1().ids;
    assert NewNode(FieldRef("to"), "C", 2, Undefined, Undefined, Undefined) == ExampleNode("to", "C", 2, 1);
    assert AfterRow1().nodes + [ExampleNode("to", "C", 2, 1)] == NodesABC().nodes;
  }

  lemma ConnectAC()
    requires WellFormed(NodesABC())
    ensures Connect(NodesABC(), LinkAC()) == AfterRow2()
  {
    var once := Bump(NodesABC().nodes, 0);
    assert once == [ExampleNode("from", "A", 0, 3), ExampleNode("to", "B", 1, 2), ExampleNode("to", "C", 2, 1)];
    assert Bump(once, 2) == AfterRow2().nodes;
  }

  lemma Row2()
    ensures WellFormed(AfterRow1())
    ensures AddRow(ExampleContext(), AfterRow1(), ExampleTable().rows[1]) == AfterRow2()
  {
    RowCells(1, "A", "C", 2);
    CreateC();
    ConnectAC();
  }

  lemma ReuseBC()
    ensures WellFormed(AfterRow2())
    ensures LookupOrCreate(AfterRow2(), FieldRef("from"), "B", Undefined, Undefined, Undefined) == (AfterRow2(), 1)
    ensures LookupOrCreate(AfterRow2(), FieldRef("to"), "C", Undefined, Undefined, Undefined) == (AfterRow2(), 2)
  {
    CreateC();
    ConnectAC();
  }

  lemma ConnectBC()
    requires WellFormed(AfterRow2())
    ensures Connect(AfterRow2(), LinkBC()) == ExampleArena()
  {
    var once := Bump(AfterRow2().nodes, 1);
    assert once == [ExampleNode("from", "A", 0, 3), ExampleNode("to", "B", 1, 3), ExampleNode("to", "C", 2, 2)];
    assert Bump(once, 2) == ExampleArena().nodes;
  }

  lemma Row3()
    ensures WellFormed(AfterRow2())
    ensures AddRow(ExampleContext(), AfterRow2(), ExampleTable().rows[2]) == ExampleArena()
  {
    RowCells(2, "B", "C", 3);
    ReuseBC();
    ConnectBC();
  }

  lemma FirstRow()
    ensures AddRows(ExampleContext(), ExampleTable().rows[..1]) == AfterRow1()
  {
    var rows := ExampleTable().rows;
    assert rows[..1][..0] == [] && rows[..1][0] == rows[0];
    Row1();
  }

  lemma FirstTwoRows()
    ensures AddRows(ExampleContext(), ExampleTable().rows[..2]) == AfterRow2()
  {
    var rows := ExampleTable().rows;
    assert rows[..2][..1] == rows[..1] && rows[..2][1] == rows[1];
    FirstRow();
    Row2();
  }

  /** The converter builds exactly `ExampleArena` from the example table. */
  lemma ExampleBuild()
    ensures Build(ExampleTable()) == ExampleArena()
  {
    var rows := ExampleTable().rows;
    ExampleRoles();
    assert rows[..2] == rows[..|rows| - 1];
    FirstTwoRows();
    Row3();
  }

  /** In the converted example each of A, B and C is an endpoint of two links,
      so each has a neighbour count of 3, A included. */
  lemma ExampleNeighbourCounts()
    ensures forall k :: 0 <= k < 3 ==> EndpointCount(ExampleArena().links, k) == 2
    ensures var g := Convert(ExampleTable(), Settings(Undefined));
      |g.nodes| == 3 && forall k :: 0 <= k < 3 ==> g.nodes[k].neighbors == 3
  {
    var links := ExampleArena().links;
    assert links[..2][..1] == links[..1];
    assert links[..|links| - 1] == links[..2];
    assert links[..1][..0] == [];
    assert EndpointCount(links[..1], 0) == 1 && EndpointCount(links[..1], 1) == 1 && EndpointCount(links[..1], 2) == 0;
    ExampleBuild();
  }

  /** A cap of 2 keeps A and B and only the link between them. */
  lemma ExampleCap()
    ensures Convert(ExampleTable(), Settings(Number(2)))
         == Graph([ExampleNode("from", "A", 0, 3), ExampleNode("to", "B", 1, 3)], [LinkAB()])
  {
    ExampleBuild();
    var links := ExampleArena().links;
    assert links[..1][..0] == [];
    assert KeepLinksBelow(links[..1], 2) == [links[0]];
    assert links[..2][..1] == links[..1];
    assert KeepLinksBelow(links[..2], 2) == [links[0]];
    assert links[..|links| - 1] == links[..2];
  }
}
