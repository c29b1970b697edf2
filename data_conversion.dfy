/** The network navigator's table-to-graph converter: column roles are resolved
    to column indices, every row whose source and target cells are truthy adds
    (or reuses) two nodes and one link, and the result is cut to an optional
    node cap. */
module DataConversion {
  import opened JsValues

  // The data roles the converter looks up (the names of the visual's DATA_ROLES).
  const SourceRole := "source"
  const TargetRole := "target"
  const SourceColorRole := "sourceColor"
  const SourceLabelColorRole := "sourceLabelColor"
  const TargetColorRole := "targetColor"
  const TargetLabelColorRole := "targetLabelColor"
  const EdgeValueRole := "edgeValue"
  const EdgeColorValueRole := "edgeColorValue"
  const SourceNodeWeightRole := "sourceNodeWeight"
  const TargetNodeWeightRole := "targetNodeWeight"

  /** Colour of a node whose colour cell is falsy. */
  const DefaultColor := "gray"

  /** A column of the host's table, with the names of the roles it fulfils. */
  datatype Column = Column(roles: seq<string>)

  /** One of the table's identity fields: a host expression, opaque here. */
  datatype FieldRef = FieldRef(name: string)

  datatype Table = Table(columns: seq<Column>, identityFields: seq<Option<FieldRef>>, rows: seq<seq<Cell>>)

  datatype Settings = Settings(maxNodeCount: Cell)

  /** The host filter "field equals the text id"; opaque here. */
  datatype FilterExpr = TextEquals(field: FieldRef, text: string)

  /** The host selection id built from a filter; opaque here. */
  datatype SelectionId = SelectionId(expr: FilterExpr)

  datatype Node = Node(
    name: string,
    color: Cell,
    labelColor: Cell,
    index: nat,
    filterExpr: FilterExpr,
    value: Cell,
    neighbors: nat,
    selected: bool,
    identity: SelectionId)

  /** A link between two nodes, given by their indices in the node list. */
  datatype Link = Link(source: nat, target: nat, value: Cell, colorValue: Cell)

  datatype Graph = Graph(nodes: seq<Node>, links: seq<Link>)

  function Min(a: int, b: int): int
  {
    if a <= b then a else b
  }

  // ---------------------------------------------------------------------------
  // Role resolution

  /** `colMap[role] = i` for each of `roles`, in order. */
  function AssignRoles(colMap: map<string, nat>, roles: seq<string>, i: nat): map<string, nat>
  {
    if roles == [] then colMap
    else AssignRoles(colMap, roles[..|roles| - 1], i)[roles[|roles| - 1] := i]
  }

  /** The role map left by the nested loop over the columns and their roles. */
  function RoleMap(columns: seq<Column>): map<string, nat>
  {
    if columns == [] then map[]
    else AssignRoles(RoleMap(columns[..|columns| - 1]), columns[|columns| - 1].roles, |columns| - 1)
  }

  /** Fills the role map column by column, role by role. */
  method ResolveRoles(columns: seq<Column>) returns (colMap: map<string, nat>)
    ensures colMap == RoleMap(columns)
  {
    colMap := map[];
    var i := 0;
    while i < |columns|
      invariant 0 <= i <= |columns|
      invariant colMap == RoleMap(columns[..i])
    {
      var roles := columns[i].roles;
      var j := 0;
      while j < |roles|
        invariant 0 <= j <= |roles|
        invariant colMap == AssignRoles(RoleMap(columns[..i]), roles[..j], i)
      {
        assert roles[..j + 1][..j] == roles[..j];
        colMap := colMap[roles[j] := i];
        j := j + 1;
      }
      assert columns[..i + 1][..i] == columns[..i];
      assert roles[..j] == roles;
      i := i + 1;
    }
    assert columns[..i] == columns;
  }

  /** `colMap[role]`: absent when no column declares the role. */
  function Lookup(colMap: map<string, nat>, role: string): Option<nat>
  {
    if role in colMap then Some(colMap[role]) else None
  }

  /** The column index of each role the converter uses. */
  datatype RoleColumns = RoleColumns(
    source: Option<nat>,
    target: Option<nat>,
    sourceColor: Option<nat>,
    sourceLabelColor: Option<nat>,
    targetColor: Option<nat>,
    targetLabelColor: Option<nat>,
    edgeValue: Option<nat>,
    edgeColorValue: Option<nat>,
    sourceNodeWeight: Option<nat>,
    targetNodeWeight: Option<nat>)

  /** `idx` is the column the role map gives `role`, and absent when it gives none. */
  ghost predicate Resolves(colMap: map<string, nat>, role: string, idx: Option<nat>)
  {
    (idx.Some? <==> role in colMap) && (idx.Some? ==> idx.value == colMap[role])
  }

  /** The role lookups: each role's column index, read from the role map. */
  function ResolveColumns(colMap: map<string, nat>): (r: RoleColumns)
    ensures Resolves(colMap, SourceRole, r.source) && Resolves(colMap, TargetRole, r.target)
    ensures Resolves(colMap, SourceColorRole, r.sourceColor) && Resolves(colMap, SourceLabelColorRole, r.sourceLabelColor)
    ensures Resolves(colMap, TargetColorRole, r.targetColor) && Resolves(colMap, TargetLabelColorRole, r.targetLabelColor)
    ensures Resolves(colMap, EdgeValueRole, r.edgeValue) && Resolves(colMap, EdgeColorValueRole, r.edgeColorValue)
    ensures Resolves(colMap, SourceNodeWeightRole, r.sourceNodeWeight)
    ensures Resolves(colMap, TargetNodeWeightRole, r.targetNodeWeight)
  {
    RoleColumns(
      Lookup(colMap, SourceRole),
      Lookup(colMap, TargetRole),
      Lookup(colMap, SourceColorRole),
      Lookup(colMap, SourceLabelColorRole),
      Lookup(colMap, TargetColorRole),
      Lookup(colMap, TargetLabelColorRole),
      Lookup(colMap, EdgeValueRole),
      Lookup(colMap, EdgeColorValueRole),
      Lookup(colMap, SourceNodeWeightRole),
      Lookup(colMap, TargetNodeWeightRole))
  }

  /** `row[idx]`: `undefined` for an absent index or one past the row's end. */
  function CellAt(row: seq<Cell>, idx: Option<nat>): Cell
  {
    if idx.Some? && idx.value < |row| then row[idx.value] else Undefined
  }

  /** `table.identityFields[idx]`. */
  function FieldAt(fields: seq<Option<FieldRef>>, idx: Option<nat>): Option<FieldRef>
  {
    if idx.Some? && idx.value < |fields| then fields[idx.value] else None
  }

  /** What the row loop sees besides the row: resolved columns and both identity fields. */
  datatype Context = Context(cols: RoleColumns, sourceField: FieldRef, targetField: FieldRef)

  /** A row takes part only when both its source and target cells are truthy. */
  predicate RowKept(ctx: Context, row: seq<Cell>)
  {
    Truthy(CellAt(row, ctx.cols.source)) && Truthy(CellAt(row, ctx.cols.target))
  }

  function SourceId(ctx: Context, row: seq<Cell>): string
  {
    Stringify(CellAt(row, ctx.cols.source))
  }

  function TargetId(ctx: Context, row: seq<Cell>): string
  {
    Stringify(CellAt(row, ctx.cols.target))
  }

  // ---------------------------------------------------------------------------
  // The node arena: node list, id lookup table and link list

  datatype Arena = Arena(nodes: seq<Node>, ids: map<string, nat>, links: seq<Link>)

  const EmptyArena := Arena([], map[], [])

  /** How many link endpoints (source and target counted separately) are `k`. */
  function EndpointCount(links: seq<Link>, k: nat): nat
  {
    if links == [] then 0
    else
      var l := links[|links| - 1];
      EndpointCount(links[..|links| - 1], k)
        + (if l.source == k then 1 else 0)
        + (if l.target == k then 1 else 0)
  }

  /** The invariant of the arena: the lookup table and the node list agree, every
      node sits at its own index, links point into the list, and each node's
      neighbour count is one more than the endpoints referring to it. */
  ghost predicate WellFormed(a: Arena)
  {
    && (forall k :: 0 <= k < |a.nodes| ==>
          a.nodes[k].index == k && a.nodes[k].name in a.ids && a.ids[a.nodes[k].name] == k)
    && (forall id :: id in a.ids ==> a.ids[id] < |a.nodes| && a.nodes[a.ids[id]].name == id)
    && (forall l :: l in a.links ==> l.source < |a.nodes| && l.target < |a.nodes|)
    && (forall k :: 0 <= k < |a.nodes| ==> a.nodes[k].neighbors == 1 + EndpointCount(a.links, k))
  }

  lemma {:induction false} EndpointCountBeyond(links: seq<Link>, n: nat, k: nat)
    requires forall l :: l in links ==> l.source < n && l.target < n
    requires n <= k
    ensures EndpointCount(links, k) == 0
  {
    if links != [] {
      EndpointCountBeyond(links[..|links| - 1], n, k);
    }
  }

  lemma EndpointCountAppend(links: seq<Link>, l: Link, k: nat)
    ensures EndpointCount(links + [l], k)
         == EndpointCount(links, k) + (if l.source == k then 1 else 0) + (if l.target == k then 1 else 0)
  {
    assert (links + [l])[..|links|] == links;
  }

  /** `color || "gray"`. */
  function ColorOrDefault(color: Cell): (c: Cell)
    ensures Truthy(c)
    ensures Truthy(color) ==> c == color
    ensures !Truthy(color) ==> c == Text(DefaultColor)
  {
    if Truthy(color) then color else Text(DefaultColor)
  }

  /** The node `getNode` creates for an id not seen before. */
  function NewNode(field: FieldRef, id: string, index: nat, nodeWeight: Cell, color: Cell, labelColor: Cell): (n: Node)
    ensures n.name == id && n.index == index && n.neighbors == 1 && !n.selected
    ensures Truthy(n.color) && n.labelColor == labelColor && n.value == nodeWeight
    ensures n.filterExpr == TextEquals(field, id) && n.identity == SelectionId(n.filterExpr)
  {
    var expr := TextEquals(field, id);
    Node(id, ColorOrDefault(color), labelColor, index, expr, nodeWeight, 1, false, SelectionId(expr))
  }

  /** `getNode`: the index of the node for `id`, created at the end of the list
      when the id is new. A known id leaves the arena as it is, whatever this
      call's weight and colours. */
  function LookupOrCreate(a: Arena, field: FieldRef, id: string, nodeWeight: Cell, color: Cell, labelColor: Cell)
    : (r: (Arena, nat))
    requires WellFormed(a)
    ensures WellFormed(r.0)
    ensures r.1 < |r.0.nodes| && r.0.nodes[r.1].name == id && r.0.ids == a.ids[id := r.1]
    ensures r.0.links == a.links && |a.nodes| <= |r.0.nodes| && r.0.nodes[..|a.nodes|] == a.nodes
    ensures id in a.ids ==> r.0 == a && r.1 == a.ids[id]
    ensures id !in a.ids ==> r.1 == |a.nodes| && |r.0.nodes| == |a.nodes| + 1
    ensures id !in a.ids ==> r.0.nodes[r.1] == NewNode(field, id, |a.nodes|, nodeWeight, color, labelColor)
  {
    if id in a.ids then (a, a.ids[id])
    else
      var n := |a.nodes|;
      EndpointCountBeyond(a.links, n, n);
      (Arena(a.nodes + [NewNode(field, id, n, nodeWeight, color, labelColor)], a.ids[id := n], a.links), n)
  }

  /** `nodeList[k].neighbors += 1`. */
  function Bump(nodes: seq<Node>, k: nat): seq<Node>
    requires k < |nodes|
  {
    nodes[k := nodes[k].(neighbors := nodes[k].neighbors + 1)]
  }

  lemma ConnectWellFormed(a: Arena, l: Link)
    requires WellFormed(a) && l.source < |a.nodes| && l.target < |a.nodes|
    ensures WellFormed(Arena(Bump(Bump(a.nodes, l.source), l.target), a.ids, a.links + [l]))
  {
    var b := Arena(Bump(Bump(a.nodes, l.source), l.target), a.ids, a.links + [l]);
    forall k | 0 <= k < |b.nodes|
      ensures b.nodes[k].neighbors == 1 + EndpointCount(b.links, k)
    {
      EndpointCountAppend(a.links, l, k);
    }
  }

  /** Linking the endpoints: count the new link on both endpoints, then append it. */
  function Connect(a: Arena, l: Link): (r: Arena)
    requires WellFormed(a) && l.source < |a.nodes| && l.target < |a.nodes|
    ensures WellFormed(r)
  {
    ConnectWellFormed(a, l);
    Arena(Bump(Bump(a.nodes, l.source), l.target), a.ids, a.links + [l])
  }

  /** One step of the row loop. */
  function AddRow(ctx: Context, a: Arena, row: seq<Cell>): (r: Arena)
    requires WellFormed(a)
    ensures WellFormed(r)
  {
    if !RowKept(ctx, row) then a
    else
      var cols := ctx.cols;
      var (a1, s) := LookupOrCreate(a, ctx.sourceField, SourceId(ctx, row),
        CellAt(row, cols.sourceNodeWeight), CellAt(row, cols.sourceColor), CellAt(row, cols.sourceLabelColor));
      var (a2, t) := LookupOrCreate(a1, ctx.targetField, TargetId(ctx, row),
        CellAt(row, cols.targetNodeWeight), CellAt(row, cols.targetColor), CellAt(row, cols.targetLabelColor));
      Connect(a2, Link(s, t, CellAt(row, cols.edgeValue), CellAt(row, cols.edgeColorValue)))
  }

  /** The arena after the row loop has visited `rows`, in order. */
  function AddRows(ctx: Context, rows: seq<seq<Cell>>): (a: Arena)
    ensures WellFormed(a)
  {
    if rows == [] then EmptyArena
    else AddRow(ctx, AddRows(ctx, rows[..|rows| - 1]), rows[|rows| - 1])
  }

  /** The arena before trimming; nothing is built without both identity fields. */
  function Build(table: Table): (a: Arena)
    ensures WellFormed(a)
  {
    var cols := ResolveColumns(RoleMap(table.columns));
    var sourceField := FieldAt(table.identityFields, cols.source);
    var targetField := FieldAt(table.identityFields, cols.target);
    if sourceField.Some? && targetField.Some? then
      AddRows(Context(cols, sourceField.value, targetField.value), table.rows)
    else
      EmptyArena
  }

  // ---------------------------------------------------------------------------
  // The id table as the code reads it

  /** The members every plain JavaScript object inherits from `Object.prototype`. */
  const ObjectPrototypeMembers: set<string> := {
    "constructor", "hasOwnProperty", "isPrototypeOf", "propertyIsEnumerable",
    "toLocaleString", "toString", "valueOf", "__proto__",
    "__defineGetter__", "__defineSetter__", "__lookupGetter__", "__lookupSetter__"}

  /** What `nodeMap[id]` yields on the plain object used as the id table. */
  datatype Entry = Own(index: nat) | Inherited | Absent

  function NodeMapGet(ids: map<string, nat>, id: string): Entry
  {
    if id in ids then Own(ids[id])
    else if id in ObjectPrototypeMembers then Inherited
    else Absent
  }

  /** `nodeMap[id]` on the table of `a` finds an inherited member, not a node. */
  predicate Inherits(a: Arena, id: string)
  {
    id !in a.ids && id in ObjectPrototypeMembers
  }

  /** `getNode(...).index` as written: an inherited member is truthy, so no node
      is created, and its `index` is undefined (`None`). */
  function GetNodeAsWritten(a: Arena, field: FieldRef, id: string, nodeWeight: Cell, color: Cell, labelColor: Cell)
    : (r: (Arena, Option<nat>))
    requires WellFormed(a)
    ensures WellFormed(r.0) && |a.nodes| <= |r.0.nodes|
    ensures r.1.None? <==> Inherits(a, id)
    ensures r.1.None? ==> r.0 == a
    ensures r.1.Some? ==> r.1.value < |r.0.nodes| && r.0.ids == a.ids[id := r.1.value]
  {
    match NodeMapGet(a.ids, id)
    case Own(k) => (a, Some(k))
    case Inherited => (a, None)
    case Absent =>
      var (b, k) := LookupOrCreate(a, field, id, nodeWeight, color, labelColor);
      (b, Some(k))
  }

  /** One step of the row loop as written; `None` is the TypeError thrown by
      `nodeList[undefined].neighbors`, which aborts the whole conversion. */
  function AddRowAsWritten(ctx: Context, a: Arena, row: seq<Cell>): (r: Option<Arena>)
    requires WellFormed(a)
    ensures r.Some? ==> WellFormed(r.value)
    ensures r.None? <==> RowKept(ctx, row) && (Inherits(a, SourceId(ctx, row)) || Inherits(a, TargetId(ctx, row)))
  {
    if !RowKept(ctx, row) then Some(a)
    else
      var cols := ctx.cols;
      var (a1, s) := GetNodeAsWritten(a, ctx.sourceField, SourceId(ctx, row),
        CellAt(row, cols.sourceNodeWeight), CellAt(row, cols.sourceColor), CellAt(row, cols.sourceLabelColor));
      var (a2, t) := GetNodeAsWritten(a1, ctx.targetField, TargetId(ctx, row),
        CellAt(row, cols.targetNodeWeight), CellAt(row, cols.targetColor), CellAt(row, cols.targetLabelColor));
      if s.None? || t.None? then None
      else Some(Connect(a2, Link(s.value, t.value, CellAt(row, cols.edgeValue), CellAt(row, cols.edgeColorValue))))
  }

  // ---------------------------------------------------------------------------
  // Trimming

  /** The links whose both endpoints are below `n`, in their original order. */
  function KeepLinksBelow(links: seq<Link>, n: nat): (r: seq<Link>)
    ensures |r| <= |links|
    ensures forall l :: l in r <==> l in links && l.source < n && l.target < n
  {
    if links == [] then []
    else
      var l := links[|links| - 1];
      var kept := KeepLinksBelow(links[..|links| - 1], n);
      assert links == links[..|links| - 1] + [l];
      if l.source < n && l.target < n then kept + [l] else kept
  }

  /** A cap is in force only when `maxNodeCount` is a positive number. */
  predicate CapApplies(maxNodes: Cell)
  {
    maxNodes.Number? && maxNodes.n > 0
  }

  /** The cap: with a cap in force the node list is cut to its first
      `maxNodeCount` nodes and the links are filtered; otherwise nothing changes. */
  function Trim(a: Arena, maxNodes: Cell): (g: Graph)
    ensures |g.nodes| <= |a.nodes| && g.nodes == a.nodes[..|g.nodes|]
    ensures CapApplies(maxNodes) ==> |g.nodes| == Min(maxNodes.n, |a.nodes|)
    ensures !CapApplies(maxNodes) ==> g == Graph(a.nodes, a.links)
  {
    if CapApplies(maxNodes) then
      Graph(a.nodes[..Min(maxNodes.n, |a.nodes|)], KeepLinksBelow(a.links, maxNodes.n))
    else
      Graph(a.nodes, a.links)
  }

  /** What the converter returns: no link points past the (possibly cut) node list. */
  function Convert(table: Table, settings: Settings): (g: Graph)
    ensures forall l :: l in g.links ==> l.source < |g.nodes| && l.target < |g.nodes|
  {
    Trim(Build(table), settings.maxNodeCount)
  }

  // ---------------------------------------------------------------------------
  // The converter's local state and its loop

  /** The node list, id table and link list that `getNode` and the row loop update. */
  class GraphBuilder {
    const context: Context
    var nodeList: seq<Node>
    var nodeMap: map<string, nat>
    var linkList: seq<Link>

    function Snapshot(): Arena
      reads this
    {
      Arena(nodeList, nodeMap, linkList)
    }

    ghost predicate Valid()
      reads this
    {
      WellFormed(Snapshot())
    }

    constructor(context: Context)
      ensures this.context == context
      ensures Snapshot() == EmptyArena && Valid()
    {
      this.context := context;
      nodeList := [];
      nodeMap := map[];
      linkList := [];
    }

    /** Returns the node for `id`, creating and registering it if the id is new. */
    method GetNode(id: string, isSource: bool, nodeWeight: Cell, color: Cell, labelColor: Cell)
      returns (node: Node)
      requires Valid()
      modifies this
      ensures Valid()
      ensures (Snapshot(), node.index)
           == LookupOrCreate(old(Snapshot()), if isSource then context.sourceField else context.targetField,
                             id, nodeWeight, color, labelColor)
      ensures node.index < |nodeList| && node == nodeList[node.index]
    {
      var field := if isSource then context.sourceField else context.targetField;
      ghost var expected := LookupOrCreate(Snapshot(), field, id, nodeWeight, color, labelColor);
      if id !in nodeMap {
        var created := NewNode(field, id, |nodeList|, nodeWeight, color, labelColor);
        nodeMap := nodeMap[id := |nodeList|];
        nodeList := nodeList + [created];
      }
      assert Snapshot() == expected.0;
      node := nodeList[nodeMap[id]];
    }

    /** The body of the row loop. */
    method VisitRow(row: seq<Cell>)
      requires Valid()
      modifies this
      ensures Valid()
      ensures Snapshot() == AddRow(context, old(Snapshot()), row)
    {
      var cols := context.cols;
      ghost var a0 := Snapshot();
      if Truthy(CellAt(row, cols.source)) && Truthy(CellAt(row, cols.target)) {
        var sourceId := Stringify(CellAt(row, cols.source));
        var targetId := Stringify(CellAt(row, cols.target));
        var sourceNode := GetNode(sourceId, true, CellAt(row, cols.sourceNodeWeight),
                                  CellAt(row, cols.sourceColor), CellAt(row, cols.sourceLabelColor));
        ghost var a1 := Snapshot();
        var targetNode := GetNode(targetId, false, CellAt(row, cols.targetNodeWeight),
                                  CellAt(row, cols.targetColor), CellAt(row, cols.targetLabelColor));
        ghost var a2 := Snapshot();
        assert |a1.nodes| <= |a2.nodes|;
        var edge := Link(sourceNode.index, targetNode.index, CellAt(row, cols.edgeValue), CellAt(row, cols.edgeColorValue));
        assert AddRow(context, a0, row) == Connect(a2, edge);
        AddLink(edge);
      }
    }

    /** Linking the endpoints: counts the link on both endpoints, then appends it. */
    method AddLink(edge: Link)
      requires Valid() && edge.source < |nodeList| && edge.target < |nodeList|
      modifies this
      ensures Snapshot() == Connect(old(Snapshot()), edge)
    {
      ghost var before := Snapshot();
      nodeList := nodeList[edge.source := nodeList[edge.source].(neighbors := nodeList[edge.source].neighbors + 1)];
      assert nodeList == Bump(before.nodes, edge.source);
      nodeList := nodeList[edge.target := nodeList[edge.target].(neighbors := nodeList[edge.target].neighbors + 1)];
      linkList := linkList + [edge];
    }

    /** The row loop: visits every row in order. */
    method VisitRows(rows: seq<seq<Cell>>)
      requires Snapshot() == EmptyArena
      modifies this
      ensures Snapshot() == AddRows(context, rows)
    {
      var i := 0;
      while i < |rows|
        invariant 0 <= i <= |rows|
        invariant Snapshot() == AddRows(context, rows[..i]) && Valid()
      {
        assert rows[..i + 1][..i] == rows[..i];
        assert AddRows(context, rows[..i + 1]) == AddRow(context, AddRows(context, rows[..i]), rows[i]);
        VisitRow(rows[i]);
        i := i + 1;
      }
      assert rows[..i] == rows;
    }
  }

  /** The converter: resolve roles, walk the rows, then apply the node cap. */
  method Converter(table: Table, settings: Settings) returns (g: Graph)
    ensures g == Convert(table, settings)
  {
    var colMap := ResolveRoles(table.columns);
    var cols := ResolveColumns(colMap);
    var sourceField := FieldAt(table.identityFields, cols.source);
    var targetField := FieldAt(table.identityFields, cols.target);
    var nodeList: seq<Node> := [];
    var linkList: seq<Link> := [];
    if sourceField.Some? && targetField.Some? {
      var builder := new GraphBuilder(Context(cols, sourceField.value, targetField.value));
      builder.VisitRows(table.rows);
      nodeList, linkList := builder.nodeList, builder.linkList;
      var maxNodes := settings.maxNodeCount;
      if maxNodes.Number? && maxNodes.n > 0 {
        nodeList := nodeList[..Min(maxNodes.n, |nodeList|)];
        linkList := KeepLinksBelow(linkList, maxNodes.n);
      }
    }
    g := Graph(nodeList, linkList);
  }
}
