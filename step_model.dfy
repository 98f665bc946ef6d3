/**
 * `parseStep` (src/step-parser.ts): comments are stripped, the text is cut
 * into lines, every trimmed line of the form `#id = TYPE(args);` is handed to
 * the parser of its type, and the entity is stored in the table of its kind.
 */
module StepReader {
  import opened Wrappers
  import opened Vectors
  import opened StepText
  import opened StepPatterns
  import opened StepEntities

  /** The three captures of the entity-line pattern. */
  datatype EntityLine = EntityLine(id: nat, typeName: string, args: string)

  /** `^#(\d+)\s*=\s*([A-Z0-9_]+)\s*\(`: the entity line up to its opening parenthesis. */
  const EntityHead: seq<Elem> := IdHead + (EqualsHead + TypeHead)

  /** `#(\d+)` */
  const IdHead: seq<Elem> := [Char('#'), Id]

  /** `\s*=` */
  const EqualsHead: seq<Elem> := [Space, Char('=')]

  /** `\s*([A-Z0-9_]+)\s*\(` */
  const TypeHead: seq<Elem> := [Space, Keyword, Space, Char('(')]

  /**
   * `(.*)\);?$` on what follows the opening parenthesis: the greedy `.*` takes
   * everything but a final `)` or `);`, and cannot cross a line terminator.
   */
  function CloseArgs(rest: string): (r: Option<string>)
    ensures r.Some? ==> SingleLine(r.value) && (rest == r.value + ")" || rest == r.value + ");")
  {
    if |rest| >= 1 && rest[|rest| - 1] == ')' then
      if SingleLine(rest[..|rest| - 1]) then Some(rest[..|rest| - 1]) else None
    else if |rest| >= 2 && rest[|rest| - 2] == ')' && rest[|rest| - 1] == ';' then
      if SingleLine(rest[..|rest| - 2]) then Some(rest[..|rest| - 2]) else None
    else None
  }

  /** `trimmed.match(entityRegex)`: the id, the type name and the raw argument text. */
  function MatchEntityLine(line: string): (r: Option<EntityLine>)
    ensures r.Some? ==> line != [] && line[0] == '#' && SingleLine(r.value.args)
  {
    match Match(line, EntityHead)
    case None => None
    case Some(m) =>
      match CloseArgs(m.rest)
      case None => None
      case Some(args) => Some(EntityLine(NumberAt(m.captures, 0), TextAt(m.captures, 1), args))
  }

  /** A type name the keyword element reads whole. */
  predicate KeywordText(t: string) {
    t != [] && forall i | 0 <= i < |t| :: IsKeywordChar(t[i])
  }

  /** The canonical entity line `#id=TYPE(args);`. */
  function ShowLine(id: nat, typeName: string, args: string): string {
    "#" + ShowNat(id) + "=" + typeName + "(" + args + ");"
  }

  /** The argument text is read back with or without the closing semicolon. */
  lemma {:induction false} CloseArgsOf(args: string)
    requires SingleLine(args)
    ensures CloseArgs(args + ")") == Some(args)
    ensures CloseArgs(args + ");") == Some(args)
  {
    assert (args + ")")[..|args|] == args;
    assert (args + ");")[..|args|] == args;
  }

  /** A canonical entity line is matched with its id, type name and arguments. */
  lemma {:induction false} EntityLineRoundTrip(id: nat, typeName: string, args: string)
    requires KeywordText(typeName) && SingleLine(args)
    ensures MatchEntityLine(ShowLine(id, typeName, args)) == Some(EntityLine(id, typeName, args))
  {
    var caps := [Number(id), Text(typeName)];
    var rest := args + ");";
    assert Match(ShowLine(id, typeName, args), EntityHead) == Some(Matched(caps, rest)) by {
      EntityHeadFits(id, typeName, First(rest));
      MatchRender(EntityHead, caps, rest);
      ShowLineParts(id, typeName, args);
    }
    assert CloseArgs(rest) == Some(args) by {
      CloseArgsOf(args);
    }
    assert NumberAt(caps, 0) == id && TextAt(caps, 1) == typeName;
  }

  lemma {:induction false} ShowLineParts(id: nat, typeName: string, args: string)
    ensures ShowLine(id, typeName, args) == "#" + ShowNat(id) + ("=" + (typeName + "(")) + (args + ");")
  {
  }

  lemma {:induction false} TypeHeadFits(typeName: string, follow: Option<char>)
    requires KeywordText(typeName)
    ensures Fits(TypeHead, [Text(typeName)], follow) && Lead(TypeHead, [Text(typeName)], follow) == Some(typeName[0])
    ensures Render(TypeHead, [Text(typeName)]) == typeName + "("
  {
    assert TypeHead[1..] == [Keyword, Space, Char('(')];
    assert TypeHead[2..] == [Space, Char('(')];
    assert TypeHead[3..] == [Char('(')];
  }

  lemma {:induction false} EqualsHeadFits(follow: Option<char>)
    ensures Fits(EqualsHead, [], follow) && Lead(EqualsHead, [], follow) == Some('=')
    ensures Render(EqualsHead, []) == "="
  {
    assert EqualsHead[1..] == [Char('=')];
  }

  lemma {:induction false} IdHeadFits(id: nat)
    ensures Fits(IdHead, [Number(id)], Some('='))
    ensures Render(IdHead, [Number(id)]) == "#" + ShowNat(id)
  {
    assert IdHead[1..] == [Id];
  }

  lemma {:induction false} EntityHeadFits(id: nat, typeName: string, follow: Option<char>)
    requires KeywordText(typeName)
    ensures Fits(EntityHead, [Number(id), Text(typeName)], follow)
    ensures Render(EntityHead, [Number(id), Text(typeName)]) == "#" + ShowNat(id) + ("=" + (typeName + "("))
  {
    TypeHeadFits(typeName, follow);
    EqualsHeadFits(Some(typeName[0]));
    Concat(EqualsHead, [], TypeHead, [Text(typeName)], follow);
    IdHeadFits(id);
    Concat(IdHead, [Number(id)], EqualsHead + TypeHead, [] + [Text(typeName)], follow);
    assert [Number(id)] + ([] + [Text(typeName)]) == [Number(id), Text(typeName)];
  }

  // ---------------------------------------------------------------------------
  // One line.

  /** An entity to be stored under its id. */
  datatype Stored = Stored(id: nat, entity: Entity)

  /**
   * One iteration of the `for` loop of `parseStep`: lines that do not start
   * with `#` after trimming, lines the entity pattern rejects and entities of
   * other types yield nothing; a known type yields its entity or throws.
   */
  function LineEntity(line: string, lit: Lit): (r: Result<Option<Stored>, ParseError>)
    ensures Trim(line) == [] ==> r == Success(None)
    ensures r.Failure? || r.value.Some? ==>
      MatchEntityLine(Trim(line)).Some? && Known(MatchEntityLine(Trim(line)).value.typeName)
    ensures r.Success? && r.value.Some? ==> r.value.value.id == MatchEntityLine(Trim(line)).value.id
  {
    var trimmed := Trim(line);
    if trimmed == [] || trimmed[0] != '#' then Success(None)
    else
      match MatchEntityLine(trimmed)
      case None => Success(None)
      case Some(l) =>
        match ParseArgs(l.typeName, l.args, lit)
        case Failure(e) => Failure(e)
        case Success(None) => Success(None)
        case Success(Some(e)) => Success(Some(Stored(l.id, e)))
  }

  /** A canonical line needs no trimming. */
  lemma {:induction false} ShowLineTrimmed(id: nat, typeName: string, args: string)
    ensures Trim(ShowLine(id, typeName, args)) == ShowLine(id, typeName, args)
  {
    var l := ShowLine(id, typeName, args);
    assert l[0] == '#' && l[|l| - 1] == ';';
    assert [] + l + [] == l;
    TrimPadded([], l, []);
  }

  /** The canonical line of a topological entity is read back as that entity under its id. */
  lemma {:induction false} EntityLineRead(id: nat, e: Entity, lit: Lit)
    requires !e.PointEntity?
    ensures LineEntity(ShowLine(id, TypeName(e), RenderArgs(e)), lit) == Success(Some(Stored(id, e)))
  {
    ArgsSingleLine(e);
    TypeNameKeyword(e);
    ShowLineTrimmed(id, TypeName(e), RenderArgs(e));
    EntityLineRoundTrip(id, TypeName(e), RenderArgs(e));
    ArgsRoundTrip(e, lit);
  }

  /** The canonical line of a point is read back with `parseFloat` of each numeral. */
  lemma {:induction false} PointLineRead(id: nat, x: string, y: string, z: string, lit: Lit)
    requires NumeralText(x) && NumeralText(y) && NumeralText(z)
    ensures LineEntity(ShowLine(id, "CARTESIAN_POINT", RenderPointArgs(x, y, z)), lit)
         == Success(Some(Stored(id, PointEntity(Vec3(lit(x), lit(y), lit(z))))))
  {
    var args := RenderPointArgs(x, y, z);
    PointArgsSingleLine(x, y, z);
    ShowLineTrimmed(id, "CARTESIAN_POINT", args);
    EntityLineRoundTrip(id, "CARTESIAN_POINT", args);
    PointRoundTrip(x, y, z, lit);
  }

  /** A well-formed line whose type is none of the seven is skipped without error. */
  lemma {:induction false} UnknownTypeSkipped(id: nat, typeName: string, args: string, lit: Lit)
    requires KeywordText(typeName) && !Known(typeName) && SingleLine(args)
    ensures LineEntity(ShowLine(id, typeName, args), lit) == Success(None)
  {
    ShowLineTrimmed(id, typeName, args);
    EntityLineRoundTrip(id, typeName, args);
  }

  /** A known type whose arguments its pattern rejects throws the parser's error. */
  lemma {:induction false} MismatchThrows(id: nat, typeName: string, args: string, lit: Lit)
    requires KeywordText(typeName) && Known(typeName) && SingleLine(args)
    requires ParseKnown(typeName, args, lit).Failure?
    ensures LineEntity(ShowLine(id, typeName, args), lit) == Failure(ParseKnown(typeName, args, lit).error)
  {
    ShowLineTrimmed(id, typeName, args);
    EntityLineRoundTrip(id, typeName, args);
  }

  lemma {:induction false} TypeNameKeyword(e: Entity)
    ensures KeywordText(TypeName(e))
  {
    var name := TypeName(e);
    forall i | 0 <= i < |name|
      ensures IsKeywordChar(name[i])
    {
      match e
      case PointEntity(_) =>
      case VertexEntity(_) =>
      case CurveEntity(_) =>
      case OrientedEdgeEntity(_) =>
      case LoopEntity(_) =>
      case BoundEntity(_) =>
      case FaceEntity(_) =>
    }
  }

  /** Canonical arguments stay on one line. */
  lemma {:induction false} ArgsSingleLine(e: Entity)
    requires !e.PointEntity?
    ensures SingleLine(RenderArgs(e))
  {
    match e
    case VertexEntity(p) =>
      RefFieldFits(p, None);
      QuotedSingleLine(Render(VertexPointTail, [Number(p)]));
    case CurveEntity(c) =>
      CurveTailFits(c);
      QuotedSingleLine(Render(EdgeCurveTail, CurveCaptures(c)));
    case OrientedEdgeEntity(o) =>
      OrientedEdgeTailFits(o);
      QuotedSingleLine(Render(OrientedEdgeTail, OrientedEdgeCaptures(o)));
    case LoopEntity(ids) =>
      ShowRefsText(ids);
      ListFieldFits(ShowRefs(ids), None);
      QuotedSingleLine(Render(EdgeLoopTail, [Text(ShowRefs(ids))]));
    case BoundEntity(b) =>
      BoundTailFits(b);
      QuotedSingleLine(Render(FaceOuterBoundTail, BoundCaptures(b)));
    case FaceEntity(f) =>
      FaceTailFits(f);
      QuotedSingleLine(Render(AdvancedFaceTail, FaceCaptures(f)));
  }

  /** An empty quoted name followed by plain text is a single line. */
  lemma {:induction false} QuotedSingleLine(tail: string)
    requires PlainText(tail)
    ensures SingleLine("''" + tail)
  {
    var s := "''" + tail;
    forall i | 2 <= i < |s|
      ensures s[i] == tail[i - 2]
    {
    }
  }

  lemma {:induction false} PointArgsSingleLine(x: string, y: string, z: string)
    requires NumeralText(x) && NumeralText(y) && NumeralText(z)
    ensures SingleLine(RenderPointArgs(x, y, z))
  {
    var tail := Render(PointTail, [Text(x), Text(y), Text(z)]);
    PointTailFits(x, y, z);
    var a := RenderPointArgs(x, y, z);
    assert a == "''," + "(" + tail;
    assert forall i | 4 <= i < |a| :: a[i] == tail[i - 4];
  }

  // ---------------------------------------------------------------------------
  // The seven tables.

  /**
   * The seven `Map`s of the model, keyed by entity id, and the insertion order
   * of the faces (a `Map` iterates in insertion order; the walk takes the first).
   */
  datatype Tables = Tables(
    points: map<nat, Vec3>,
    vertices: map<nat, nat>,
    edgeCurves: map<nat, EdgeCurve>,
    orientedEdges: map<nat, OrientedEdge>,
    edgeLoops: map<nat, seq<nat>>,
    faceBounds: map<nat, FaceOuterBound>,
    faces: map<nat, AdvancedFace>,
    faceOrder: seq<nat>)

  const NoTables: Tables := Tables(map[], map[], map[], map[], map[], map[], map[], [])

  /** `model.<table>.set(id, entity)`: a face id keeps its first place in the order. */
  function Store(t: Tables, s: Stored): (r: Tables)
    ensures r.faceOrder == t.faceOrder || r.faceOrder == t.faceOrder + [s.id]
    ensures s.entity.FaceEntity? || r.faces == t.faces
  {
    match s.entity
    case PointEntity(c) => t.(points := t.points[s.id := c])
    case VertexEntity(p) => t.(vertices := t.vertices[s.id := p])
    case CurveEntity(c) => t.(edgeCurves := t.edgeCurves[s.id := c])
    case OrientedEdgeEntity(o) => t.(orientedEdges := t.orientedEdges[s.id := o])
    case LoopEntity(ids) => t.(edgeLoops := t.edgeLoops[s.id := ids])
    case BoundEntity(b) => t.(faceBounds := t.faceBounds[s.id := b])
    case FaceEntity(f) =>
      t.(faces := t.faces[s.id := f], faceOrder := if s.id in t.faces then t.faceOrder else t.faceOrder + [s.id])
  }

  /** The seven tables. */
  datatype Kind = PointKind | VertexKind | CurveKind | OrientedEdgeKind | LoopKind | BoundKind | FaceKind

  /** The table an entity is stored in. */
  function KindOf(e: Entity): Kind {
    match e
    case PointEntity(_) => PointKind
    case VertexEntity(_) => VertexKind
    case CurveEntity(_) => CurveKind
    case OrientedEdgeEntity(_) => OrientedEdgeKind
    case LoopEntity(_) => LoopKind
    case BoundEntity(_) => BoundKind
    case FaceEntity(_) => FaceKind
  }

  /** `model.<table>.get(id)` for the table of kind `k`. */
  function Lookup(t: Tables, k: Kind, id: nat): Option<Entity> {
    match k
    case PointKind => if id in t.points then Some(PointEntity(t.points[id])) else None
    case VertexKind => if id in t.vertices then Some(VertexEntity(t.vertices[id])) else None
    case CurveKind => if id in t.edgeCurves then Some(CurveEntity(t.edgeCurves[id])) else None
    case OrientedEdgeKind => if id in t.orientedEdges then Some(OrientedEdgeEntity(t.orientedEdges[id])) else None
    case LoopKind => if id in t.edgeLoops then Some(LoopEntity(t.edgeLoops[id])) else None
    case BoundKind => if id in t.faceBounds then Some(BoundEntity(t.faceBounds[id])) else None
    case FaceKind => if id in t.faces then Some(FaceEntity(t.faces[id])) else None
  }

  /**
   * Storing behaves as one map per type: the stored entity is found under its
   * id and type, and every other (type, id) reads as before.
   */
  lemma {:induction false} StoreLookup(t: Tables, s: Stored, k: Kind, id: nat)
    ensures Lookup(Store(t, s), KindOf(s.entity), s.id) == Some(s.entity)
    ensures k != KindOf(s.entity) || id != s.id ==> Lookup(Store(t, s), k, id) == Lookup(t, k, id)
  {
    StoreFinds(t, s);
    if k != KindOf(s.entity) || id != s.id {
      StoreKeepsOthers(t, s, k, id);
    }
  }

  lemma {:induction false} StoreFinds(t: Tables, s: Stored)
    ensures Lookup(Store(t, s), KindOf(s.entity), s.id) == Some(s.entity)
  {
    match s.entity {
      case PointEntity(v) => StorePointLookup(t, s.id, v);
      case VertexEntity(v) => StoreVertexLookup(t, s.id, v);
      case CurveEntity(v) => StoreCurveLookup(t, s.id, v);
      case OrientedEdgeEntity(v) => StoreOrientedEdgeLookup(t, s.id, v);
      case LoopEntity(v) => StoreLoopLookup(t, s.id, v);
      case BoundEntity(v) => StoreBoundLookup(t, s.id, v);
      case FaceEntity(v) => StoreFaceLookup(t, s.id, v);
    }
  }

  lemma {:induction false} StoreKeepsOthers(t: Tables, s: Stored, k: Kind, id: nat)
    requires k != KindOf(s.entity) || id != s.id
    ensures Lookup(Store(t, s), k, id) == Lookup(t, k, id)
  {
    match s.entity {
      case PointEntity(v) => StorePointLookup(t, s.id, v);
      case VertexEntity(v) => StoreVertexLookup(t, s.id, v);
      case CurveEntity(v) => StoreCurveLookup(t, s.id, v);
      case OrientedEdgeEntity(v) => StoreOrientedEdgeLookup(t, s.id, v);
      case LoopEntity(v) => StoreLoopLookup(t, s.id, v);
      case BoundEntity(v) => StoreBoundLookup(t, s.id, v);
      case FaceEntity(v) => StoreFaceLookup(t, s.id, v);
    }
  }

  /** Storing one kind of entity: it is found under its id, and every other (kind, id) reads as before. */
  lemma {:induction false} StorePointLookup(t: Tables, at: nat, v: Vec3)
    ensures Lookup(Store(t, Stored(at, PointEntity(v))), PointKind, at) == Some(PointEntity(v))
    ensures forall k, id | k != PointKind || id != at :: Lookup(Store(t, Stored(at, PointEntity(v))), k, id) == Lookup(t, k, id)
    ensures Store(t, Stored(at, PointEntity(v))).faces == t.faces && Store(t, Stored(at, PointEntity(v))).faceOrder == t.faceOrder
  {
  }

  lemma {:induction false} StoreVertexLookup(t: Tables, at: nat, v: nat)
    ensures Lookup(Store(t, Stored(at, VertexEntity(v))), VertexKind, at) == Some(VertexEntity(v))
    ensures forall k, id | k != VertexKind || id != at :: Lookup(Store(t, Stored(at, VertexEntity(v))), k, id) == Lookup(t, k, id)
    ensures Store(t, Stored(at, VertexEntity(v))).faces == t.faces && Store(t, Stored(at, VertexEntity(v))).faceOrder == t.faceOrder
  {
  }

  lemma {:induction false} StoreCurveLookup(t: Tables, at: nat, v: EdgeCurve)
    ensures Lookup(Store(t, Stored(at, CurveEntity(v))), CurveKind, at) == Some(CurveEntity(v))
    ensures forall k, id | k != CurveKind || id != at :: Lookup(Store(t, Stored(at, CurveEntity(v))), k, id) == Lookup(t, k, id)
    ensures Store(t, Stored(at, CurveEntity(v))).faces == t.faces && Store(t, Stored(at, CurveEntity(v))).faceOrder == t.faceOrder
  {
  }

  lemma {:induction false} StoreOrientedEdgeLookup(t: Tables, at: nat, v: OrientedEdge)
    ensures Lookup(Store(t, Stored(at, OrientedEdgeEntity(v))), OrientedEdgeKind, at) == Some(OrientedEdgeEntity(v))
    ensures forall k, id | k != OrientedEdgeKind || id != at :: Lookup(Store(t, Stored(at, OrientedEdgeEntity(v))), k, id) == Lookup(t, k, id)
    ensures Store(t, Stored(at, OrientedEdgeEntity(v))).faces == t.faces && Store(t, Stored(at, OrientedEdgeEntity(v))).faceOrder == t.faceOrder
  {
  }

  lemma {:induction false} StoreLoopLookup(t: Tables, at: nat, v: seq<nat>)
    ensures Lookup(Store(t, Stored(at, LoopEntity(v))), LoopKind, at) == Some(LoopEntity(v))
    ensures forall k, id | k != LoopKind || id != at :: Lookup(Store(t, Stored(at, LoopEntity(v))), k, id) == Lookup(t, k, id)
    ensures Store(t, Stored(at, LoopEntity(v))).faces == t.faces && Store(t, Stored(at, LoopEntity(v))).faceOrder == t.faceOrder
  {
  }

  lemma {:induction false} StoreBoundLookup(t: Tables, at: nat, v: FaceOuterBound)
    ensures Lookup(Store(t, Stored(at, BoundEntity(v))), BoundKind, at) == Some(BoundEntity(v))
    ensures forall k, id | k != BoundKind || id != at :: Lookup(Store(t, Stored(at, BoundEntity(v))), k, id) == Lookup(t, k, id)
    ensures Store(t, Stored(at, BoundEntity(v))).faces == t.faces && Store(t, Stored(at, BoundEntity(v))).faceOrder == t.faceOrder
  {
  }

  lemma {:induction false} StoreFaceLookup(t: Tables, at: nat, v: AdvancedFace)
    ensures Lookup(Store(t, Stored(at, FaceEntity(v))), FaceKind, at) == Some(FaceEntity(v))
    ensures forall k, id | k != FaceKind || id != at :: Lookup(Store(t, Stored(at, FaceEntity(v))), k, id) == Lookup(t, k, id)
  {
  }

  /** Each id of `keys` is listed exactly once in `order`. */
  ghost predicate Listed(order: seq<nat>, keys: set<nat>) {
    && (forall i, j | 0 <= i < j < |order| :: order[i] != order[j])
    && (forall id :: id in keys <==> id in order)
  }

  /** Each face id is listed once in the face order, and exactly the stored faces are listed. */
  ghost predicate FacesListed(t: Tables) {
    Listed(t.faceOrder, t.faces.Keys)
  }

  /** Listing a new key at the end keeps the listing exact. */
  lemma {:induction false} ListedAppend(order: seq<nat>, keys: set<nat>, id: nat)
    requires Listed(order, keys) && id !in keys
    ensures Listed(order + [id], keys + {id})
  {
    var o := order + [id];
    forall i, j | 0 <= i < j < |o|
      ensures o[i] != o[j]
    {
      if j == |order| {
        assert o[i] == order[i];
      }
    }
  }

  /** What storing does to the faces and their order. */
  lemma {:induction false} StoreFaces(t: Tables, s: Stored)
    ensures !s.entity.FaceEntity? ==> Store(t, s).faces == t.faces && Store(t, s).faceOrder == t.faceOrder
    ensures s.entity.FaceEntity? && s.id in t.faces ==>
      Store(t, s).faces.Keys == t.faces.Keys && Store(t, s).faceOrder == t.faceOrder
    ensures s.entity.FaceEntity? && s.id !in t.faces ==>
      Store(t, s).faces.Keys == t.faces.Keys + {s.id} && Store(t, s).faceOrder == t.faceOrder + [s.id]
  {
    match s.entity {
      case PointEntity(v) => StorePointLookup(t, s.id, v);
      case VertexEntity(v) => StoreVertexLookup(t, s.id, v);
      case CurveEntity(v) => StoreCurveLookup(t, s.id, v);
      case OrientedEdgeEntity(v) => StoreOrientedEdgeLookup(t, s.id, v);
      case LoopEntity(v) => StoreLoopLookup(t, s.id, v);
      case BoundEntity(v) => StoreBoundLookup(t, s.id, v);
      case FaceEntity(f) => UpdateKeys(t.faces, s.id, f);
    }
  }

  /** Setting a key adds it to the keys, or keeps them when it is there already. */
  lemma {:induction false} UpdateKeys<V>(m: map<nat, V>, id: nat, v: V)
    ensures id in m ==> m[id := v].Keys == m.Keys
    ensures id !in m ==> m[id := v].Keys == m.Keys + {id}
  {
  }

  lemma {:induction false} StoreKeepsFacesListed(t: Tables, s: Stored)
    requires FacesListed(t)
    ensures FacesListed(Store(t, s))
    ensures |Store(t, s).faceOrder| >= |t.faceOrder| && Store(t, s).faceOrder[..|t.faceOrder|] == t.faceOrder
  {
    StoreFaces(t, s);
    if s.entity.FaceEntity? && s.id !in t.faces {
      ListedAppend(t.faceOrder, t.faces.Keys, s.id);
      assert (t.faceOrder + [s.id])[..|t.faceOrder|] == t.faceOrder;
    }
  }

  /** A later entity of the same kind and id replaces the earlier one, in place in the face order. */
  lemma {:induction false} StoreOverwrites(t: Tables, id: nat, e1: Entity, e2: Entity)
    requires KindOf(e1) == KindOf(e2)
    ensures Store(Store(t, Stored(id, e1)), Stored(id, e2)) == Store(t, Stored(id, e2))
  {
    match e2 {
      case PointEntity(v) => assert t.points[id := e1.coords][id := v] == t.points[id := v];
      case VertexEntity(v) => assert t.vertices[id := e1.pointId][id := v] == t.vertices[id := v];
      case CurveEntity(v) => assert t.edgeCurves[id := e1.curve][id := v] == t.edgeCurves[id := v];
      case OrientedEdgeEntity(v) =>
        assert t.orientedEdges[id := e1.orientedEdge][id := v] == t.orientedEdges[id := v];
      case LoopEntity(v) => assert t.edgeLoops[id := e1.orientedEdgeIds][id := v] == t.edgeLoops[id := v];
      case BoundEntity(v) => assert t.faceBounds[id := e1.bound][id := v] == t.faceBounds[id := v];
      case FaceEntity(v) => assert t.faces[id := e1.face][id := v] == t.faces[id := v];
    }
  }

  // ---------------------------------------------------------------------------
  // All lines.

  /** What one line yields: nothing, an entity to store, or the error it throws. */
  type Outcome = Result<Option<Stored>, ParseError>

  /** The tables after one more line's outcome. */
  function Apply(t: Tables, o: Outcome): Result<Tables, ParseError> {
    match o
    case Failure(e) => Failure(e)
    case Success(None) => Success(t)
    case Success(Some(s)) => Success(Store(t, s))
  }

  /** The tables after the outcomes in order, or the first error. */
  function Fold(outs: seq<Outcome>): (r: Result<Tables, ParseError>)
    ensures r.Failure? ==> Failure(r.error) in outs
    decreases |outs|
  {
    if outs == [] then Success(NoTables)
    else
      match Fold(outs[..|outs| - 1])
      case Failure(e) => Failure(e)
      case Success(t) => Apply(t, outs[|outs| - 1])
  }

  /** The outcome of each line. */
  function Outcomes(lines: seq<string>, lit: Lit): (r: seq<Outcome>)
    ensures |r| == |lines|
  {
    seq(|lines|, i requires 0 <= i < |lines| => LineEntity(lines[i], lit))
  }

  /** The tables after the lines in order, or the error of the first line that throws. */
  function ParseLines(lines: seq<string>, lit: Lit): Result<Tables, ParseError> {
    Fold(Outcomes(lines, lit))
  }

  /** The whole of `parseStep` on the text. */
  function ParseText(text: string, lit: Lit): (r: Result<Tables, ParseError>)
    ensures r.Success? ==> FacesListed(r.value)
  {
    var lines := SplitLines(StripLineComments(StripBlockComments(text)));
    var r := ParseLines(lines, lit);
    if r.Success? then FoldKeepsFacesListed(Outcomes(lines, lit)); r else r
  }

  /** Once a prefix of the lines throws, the whole parse throws the same error. */
  lemma {:induction false} FailureSticks(outs: seq<Outcome>, k: nat)
    requires k <= |outs| && Fold(outs[..k]).Failure?
    ensures Fold(outs) == Fold(outs[..k])
    decreases |outs| - k
  {
    if k < |outs| {
      assert outs[..k + 1][..k] == outs[..k];
      FailureSticks(outs, k + 1);
    } else {
      assert outs[..k] == outs;
    }
  }

  /** One more outcome applied to the tables so far. */
  lemma {:induction false} FoldStep(outs: seq<Outcome>, i: nat, t: Tables)
    requires i < |outs| && Fold(outs[..i]) == Success(t)
    ensures Fold(outs[..i + 1]) == Apply(t, outs[i])
  {
    assert outs[..i + 1][..i] == outs[..i];
  }

  /** Lines that all parse leave every prefix parsed. */
  lemma {:induction false} PrefixSucceeds(outs: seq<Outcome>, k: nat)
    requires k <= |outs|
    requires forall j | 0 <= j < k :: outs[j].Success?
    ensures Fold(outs[..k]).Success?
    decreases k
  {
    if k > 0 {
      assert outs[..k][..k - 1] == outs[..k - 1];
      PrefixSucceeds(outs, k - 1);
    }
  }

  /** A line that throws after lines that do not makes the parse throw its error. */
  lemma {:induction false} FirstErrorThrown(outs: seq<Outcome>, i: nat)
    requires i < |outs| && outs[i].Failure?
    requires forall j | 0 <= j < i :: outs[j].Success?
    ensures Fold(outs) == Failure(outs[i].error)
  {
    var front := outs[..i + 1];
    assert front[..i] == outs[..i] && front[i] == outs[i];
    PrefixSucceeds(outs, i);
    FailureSticks(outs, i + 1);
  }

  /** When no line throws, the parse does not throw. */
  lemma {:induction false} NoErrorParses(outs: seq<Outcome>)
    requires forall j | 0 <= j < |outs| :: outs[j].Success?
    ensures Fold(outs).Success?
  {
    PrefixSucceeds(outs, |outs|);
    assert outs[..|outs|] == outs;
  }

  /** A parse that throws has a line that throws. */
  lemma {:induction false} ErrorHasLine(outs: seq<Outcome>)
    requires Fold(outs).Failure?
    ensures exists i | 0 <= i < |outs| :: outs[i].Failure? && outs[i].error == Fold(outs).error
    decreases |outs|
  {
    var n := |outs| - 1;
    if Fold(outs[..n]).Failure? {
      ErrorHasLine(outs[..n]);
      var i :| 0 <= i < n && outs[..n][i].Failure? && outs[..n][i].error == Fold(outs[..n]).error;
      assert outs[i] == outs[..n][i];
    } else {
      assert outs[n].Failure?;
    }
  }

  /** Parsing keeps every face listed once, in the order first seen. */
  lemma {:induction false} FoldKeepsFacesListed(outs: seq<Outcome>)
    requires Fold(outs).Success?
    ensures FacesListed(Fold(outs).value)
    decreases |outs|
  {
    if outs != [] {
      FoldKeepsFacesListed(outs[..|outs| - 1]);
      var t := Fold(outs[..|outs| - 1]).value;
      match outs[|outs| - 1]
      case Success(None) =>
      case Success(Some(s)) => StoreKeepsFacesListed(t, s);
    }
  }

  /** The tables built from entities stored in order. */
  function StoreAll(entries: seq<Stored>): Tables
    decreases |entries|
  {
    if entries == [] then NoTables else Store(StoreAll(entries[..|entries| - 1]), entries[|entries| - 1])
  }

  /** Topological entities only (points carry numerals, written separately). */
  predicate Topological(entries: seq<Stored>) {
    forall i | 0 <= i < |entries| :: !entries[i].entity.PointEntity?
  }

  /** The canonical lines of the entries. */
  function ShowEntries(entries: seq<Stored>): (r: seq<string>)
    requires Topological(entries)
    ensures |r| == |entries|
  {
    seq(|entries|, i requires 0 <= i < |entries| =>
      ShowLine(entries[i].id, TypeName(entries[i].entity), RenderArgs(entries[i].entity)))
  }

  /** A parsed text lists each of its faces once, in the order they were first stored. */
  lemma {:induction false} ParseKeepsFacesListed(text: string, lit: Lit)
    requires ParseText(text, lit).Success?
    ensures FacesListed(ParseText(text, lit).value)
  {
    FoldKeepsFacesListed(Outcomes(SplitLines(StripLineComments(StripBlockComments(text))), lit));
  }

  /** Storing each of the entries, in order. */
  lemma {:induction false} FoldStored(entries: seq<Stored>)
    ensures Fold(seq(|entries|, i requires 0 <= i < |entries| => Success(Some(entries[i])))) == Success(StoreAll(entries))
    decreases |entries|
  {
    if entries != [] {
      var n := |entries| - 1;
      var outs: seq<Outcome> := seq(|entries|, i requires 0 <= i < |entries| => Success(Some(entries[i])));
      assert outs[..n] == seq(n, i requires 0 <= i < n => Success(Some(entries[..n][i])));
      FoldStored(entries[..n]);
    }
  }

  /** Reading the canonical lines of entities stores exactly those entities, in order. */
  lemma {:induction false} ReadEntries(entries: seq<Stored>, lit: Lit)
    requires Topological(entries)
    ensures ParseLines(ShowEntries(entries), lit) == Success(StoreAll(entries))
  {
    var lines := ShowEntries(entries);
    forall i | 0 <= i < |entries|
      ensures Outcomes(lines, lit)[i] == Success(Some(entries[i]))
    {
      EntityLineRead(entries[i].id, entries[i].entity, lit);
    }
    assert Outcomes(lines, lit) == seq(|entries|, i requires 0 <= i < |entries| => Success(Some(entries[i])));
    FoldStored(entries);
  }

  /** A text of comment-free lines, joined by line feeds, is parsed line by line. */
  lemma {:induction false} PlainTextLines(lines: seq<string>, lit: Lit)
    requires |lines| >= 1
    requires forall i | 0 <= i < |lines| :: '\n' !in lines[i] && '\r' !in lines[i]
    requires NoPair(Join(lines, '\n'), '/', '*') && NoPair(Join(lines, '\n'), '-', '-')
    ensures ParseText(Join(lines, '\n'), lit) == ParseLines(lines, lit)
  {
    var text := Join(lines, '\n');
    NoBlockCommentUnchanged(text);
    NoLineCommentUnchanged(text);
    JoinLinesSplit(lines);
  }

  // ---------------------------------------------------------------------------
  // The model object.

  /** The `StepModel` that `parseStep` fills. */
  class StepModel {
    var points: map<nat, Vec3>
    var vertices: map<nat, nat>
    var edgeCurves: map<nat, EdgeCurve>
    var orientedEdges: map<nat, OrientedEdge>
    var edgeLoops: map<nat, seq<nat>>
    var faceBounds: map<nat, FaceOuterBound>
    var faces: map<nat, AdvancedFace>
    var faceOrder: seq<nat>

    function Contents(): Tables
      reads this
    {
      Tables(points, vertices, edgeCurves, orientedEdges, edgeLoops, faceBounds, faces, faceOrder)
    }

    /** Seven empty maps. */
    constructor()
      ensures Contents() == NoTables
    {
      points, vertices, edgeCurves, orientedEdges := map[], map[], map[], map[];
      edgeLoops, faceBounds, faces, faceOrder := map[], map[], map[], [];
    }

    /** `model.<table>.set(id, entity)` in the table of the entity's kind. */
    method Set(s: Stored)
      modifies this
      ensures Contents() == Store(old(Contents()), s)
    {
      match s.entity
      case PointEntity(c) => points := points[s.id := c];
      case VertexEntity(p) => vertices := vertices[s.id := p];
      case CurveEntity(c) => edgeCurves := edgeCurves[s.id := c];
      case OrientedEdgeEntity(o) => orientedEdges := orientedEdges[s.id := o];
      case LoopEntity(ids) => edgeLoops := edgeLoops[s.id := ids];
      case BoundEntity(b) => faceBounds := faceBounds[s.id := b];
      case FaceEntity(f) =>
        if s.id !in faces {
          faceOrder := faceOrder + [s.id];
        }
        faces := faces[s.id := f];
    }
  }

  /** `parseStep(stepText)`: the filled model, or the error of the first line that throws. */
  method ParseStep(text: string, lit: Lit) returns (r: Result<StepModel, ParseError>)
    ensures r.Success? ==> fresh(r.value) && ParseText(text, lit) == Success(r.value.Contents())
    ensures r.Failure? ==> ParseText(text, lit) == Failure(r.error)
  {
    var stripped := StripLineComments(StripBlockComments(text));
    var lines := SplitLines(stripped);
    ghost var outs := Outcomes(lines, lit);
    assert ParseText(text, lit) == Fold(outs);
    var model := new StepModel();
    var i := 0;
    while i < |lines|
      invariant 0 <= i <= |lines|
      invariant fresh(model)
      invariant Fold(outs[..i]) == Success(model.Contents())
    {
      var o := LineEntity(lines[i], lit);
      assert o == outs[i];
      FoldStep(outs, i, model.Contents());
      match o {
        case Failure(e) =>
          FailureSticks(outs, i + 1);
          return Failure(e);
        case Success(None) =>
        case Success(Some(s)) =>
          model.Set(s);
      }
      i := i + 1;
    }
    assert outs[..i] == outs;
    return Success(model);
  }
}
