/**
 * The entity records of the STEP reader and the seven argument parsers of
 * src/step-parser.ts (`parseCartesianPoint` ... `parseAdvancedFace`), each a
 * search with its regular expression over the raw argument text.
 */
module StepEntities {
  import opened Wrappers
  import opened Vectors
  import opened StepText
  import opened StepPatterns

  datatype EdgeCurve = EdgeCurve(startVertexId: nat, endVertexId: nat, curveId: nat, sameSense: bool)

  datatype OrientedEdge = OrientedEdge(edgeElementId: nat, orientation: bool)

  datatype FaceOuterBound = FaceOuterBound(loopId: nat, orientation: bool)

  datatype AdvancedFace = AdvancedFace(boundIds: seq<nat>, surfaceId: nat, sameSense: bool)

  /** One parsed entity, by kind; its id is the key it is stored under. */
  datatype Entity =
    | PointEntity(coords: Vec3)
    | VertexEntity(pointId: nat)
    | CurveEntity(curve: EdgeCurve)
    | OrientedEdgeEntity(orientedEdge: OrientedEdge)
    | LoopEntity(orientedEdgeIds: seq<nat>)
    | BoundEntity(bound: FaceOuterBound)
    | FaceEntity(face: AdvancedFace)

  /** The two errors the parsers throw. */
  datatype ParseError =
    | ArgsMismatch(typeName: string, args: string)   // "Failed to parse <type> args: <args>"
    | InvalidRef(typeName: string, piece: string)    // "Invalid ... ref in <type>: <piece>"

  /** `parseFloat`, applied to the numeral text the point pattern captured. */
  type Lit = string -> real

  // `'.*'` is handled by `SearchQuoted`; these are the parts after it, built
  // from the fields the patterns share.

  /** `\s*,\s*`: the separator every further field starts with. */
  const Comma: seq<Elem> := [Space, Char(','), Space]

  /** `\s*,\s*#(\d+)`: a reference field. */
  const RefField: seq<Elem> := [Space, Char(','), Space, Char('#'), Id]

  /** `\s*,\s*(\.[TF]\.)`: a boolean field. */
  const FlagField: seq<Elem> := [Space, Char(','), Space, Flag]

  /** `\s*,\s*\*`: a field the parser skips. */
  const StarField: seq<Elem> := [Space, Char(','), Space, Char('*')]

  /** `\s*,\s*\(([^)]*)\)`: a parenthesised list field, captured as text. */
  const ListField: seq<Elem> := [Space, Char(','), Space, Char('('), Group]

  const VertexPointTail: seq<Elem> := RefField

  const EdgeCurveTail: seq<Elem> := RefField + (RefField + (RefField + FlagField))

  const OrientedEdgeTail: seq<Elem> := StarField + (StarField + (RefField + FlagField))

  const EdgeLoopTail: seq<Elem> := ListField

  const FaceOuterBoundTail: seq<Elem> := RefField + FlagField

  const AdvancedFaceTail: seq<Elem> := ListField + (RefField + FlagField)

  /** `\s*([-0-9.Ee+]+)`: the first coordinate, after the point's `\(`. */
  const FirstCoord: seq<Elem> := [Space, Numeral]

  /** `\s*,\s*([-0-9.Ee+]+)`: a further coordinate. */
  const NextCoord: seq<Elem> := [Space, Char(','), Space, Numeral]

  /** `\s*\)\s*$` */
  const PointClose: seq<Elem> := [Space, Char(')'), Space, End]

  /** The point pattern after its `\(`. */
  const PointTail: seq<Elem> := FirstCoord + (NextCoord + (NextCoord + PointClose))

  /** `^#(\d+)$` */
  const RefPattern: seq<Elem> := [Char('#'), Id, End]

  // ---------------------------------------------------------------------------
  // Reference lists.

  /** A reference `#n`, read as n. */
  function RefId(s: string): Option<nat> {
    match Match(s, RefPattern)
    case None => None
    case Some(m) => Some(NumberAt(m.captures, 0))
  }

  /** The pieces trimmed, empty ones dropped, the others read as references; the first bad one throws. */
  function ParseRefs(pieces: seq<string>, typeName: string): (r: Result<seq<nat>, ParseError>)
    ensures r.Success? ==> |r.value| <= |pieces|
    ensures r.Failure? ==>
      r.error.InvalidRef? && r.error.typeName == typeName && r.error.piece != [] && RefId(r.error.piece).None?
    decreases |pieces|
  {
    if pieces == [] then Success([])
    else
      var t := Trim(pieces[0]);
      if t == [] then ParseRefs(pieces[1..], typeName)
      else
        match RefId(t)
        case None => Failure(InvalidRef(typeName, t))
        case Some(id) =>
          match ParseRefs(pieces[1..], typeName)
          case Failure(e) => Failure(e)
          case Success(ids) => Success([id] + ids)
  }

  /** `split(",").map(trim).filter(Boolean)` then `^#(\d+)$` on each piece. */
  function ParseRefList(s: string, typeName: string): (r: Result<seq<nat>, ParseError>)
    ensures r.Success? ==> |r.value| <= |Split(s, ',')|
    ensures r.Failure? ==> r.error.InvalidRef? && r.error.typeName == typeName && RefId(r.error.piece).None?
  {
    ParseRefs(Split(s, ','), typeName)
  }

  // ---------------------------------------------------------------------------
  // The seven parsers.

  function ParseCartesianPoint(args: string, lit: Lit): (r: Result<Entity, ParseError>)
    ensures r.Success? ==> r.value.PointEntity?
    ensures r.Failure? ==> r.error == ArgsMismatch("CARTESIAN_POINT", args)
  {
    match SearchAfter(args, '(', PointTail, 0)
    case None => Failure(ArgsMismatch("CARTESIAN_POINT", args))
    case Some(c) => Success(PointEntity(Vec3(lit(TextAt(c, 0)), lit(TextAt(c, 1)), lit(TextAt(c, 2)))))
  }

  function ParseVertexPoint(args: string): (r: Result<Entity, ParseError>)
    ensures r.Success? ==> r.value.VertexEntity?
    ensures r.Failure? ==> r.error == ArgsMismatch("VERTEX_POINT", args)
  {
    match SearchQuoted(args, VertexPointTail)
    case None => Failure(ArgsMismatch("VERTEX_POINT", args))
    case Some(c) => Success(VertexEntity(NumberAt(c, 0)))
  }

  function ParseEdgeCurve(args: string): (r: Result<Entity, ParseError>)
    ensures r.Success? ==> r.value.CurveEntity?
    ensures r.Failure? ==> r.error == ArgsMismatch("EDGE_CURVE", args)
  {
    match SearchQuoted(args, EdgeCurveTail)
    case None => Failure(ArgsMismatch("EDGE_CURVE", args))
    case Some(c) => Success(CurveEntity(EdgeCurve(NumberAt(c, 0), NumberAt(c, 1), NumberAt(c, 2), TruthAt(c, 3))))
  }

  function ParseOrientedEdge(args: string): (r: Result<Entity, ParseError>)
    ensures r.Success? ==> r.value.OrientedEdgeEntity?
    ensures r.Failure? ==> r.error == ArgsMismatch("ORIENTED_EDGE", args)
  {
    match SearchQuoted(args, OrientedEdgeTail)
    case None => Failure(ArgsMismatch("ORIENTED_EDGE", args))
    case Some(c) => Success(OrientedEdgeEntity(OrientedEdge(NumberAt(c, 0), TruthAt(c, 1))))
  }

  /** The captured list is trimmed before it is split. */
  function ParseEdgeLoop(args: string): (r: Result<Entity, ParseError>)
    ensures r.Success? ==> r.value.LoopEntity?
    ensures r.Failure? ==> r.error == ArgsMismatch("EDGE_LOOP", args) || (r.error.InvalidRef? && r.error.typeName == "EDGE_LOOP")
  {
    match SearchQuoted(args, EdgeLoopTail)
    case None => Failure(ArgsMismatch("EDGE_LOOP", args))
    case Some(c) =>
      match ParseRefList(Trim(TextAt(c, 0)), "EDGE_LOOP")
      case Failure(e) => Failure(e)
      case Success(ids) => Success(LoopEntity(ids))
  }

  function ParseFaceOuterBound(args: string): (r: Result<Entity, ParseError>)
    ensures r.Success? ==> r.value.BoundEntity?
    ensures r.Failure? ==> r.error == ArgsMismatch("FACE_OUTER_BOUND", args)
  {
    match SearchQuoted(args, FaceOuterBoundTail)
    case None => Failure(ArgsMismatch("FACE_OUTER_BOUND", args))
    case Some(c) => Success(BoundEntity(FaceOuterBound(NumberAt(c, 0), TruthAt(c, 1))))
  }

  function ParseAdvancedFace(args: string): (r: Result<Entity, ParseError>)
    ensures r.Success? ==> r.value.FaceEntity?
    ensures r.Failure? ==> r.error == ArgsMismatch("ADVANCED_FACE", args) || (r.error.InvalidRef? && r.error.typeName == "ADVANCED_FACE")
  {
    match SearchQuoted(args, AdvancedFaceTail)
    case None => Failure(ArgsMismatch("ADVANCED_FACE", args))
    case Some(c) =>
      match ParseRefList(TextAt(c, 0), "ADVANCED_FACE")
      case Failure(e) => Failure(e)
      case Success(ids) => Success(FaceEntity(AdvancedFace(ids, NumberAt(c, 1), TruthAt(c, 2))))
  }

  /** The entity types the `switch` of `parseStep` handles. */
  predicate Known(typeName: string) {
    typeName in {"CARTESIAN_POINT", "VERTEX_POINT", "EDGE_CURVE", "ORIENTED_EDGE",
                 "EDGE_LOOP", "FACE_OUTER_BOUND", "ADVANCED_FACE"}
  }

  /** The parser a known type is handed to. */
  function ParseKnown(typeName: string, args: string, lit: Lit): Result<Entity, ParseError>
    requires Known(typeName)
  {
    if typeName == "CARTESIAN_POINT" then ParseCartesianPoint(args, lit)
    else if typeName == "VERTEX_POINT" then ParseVertexPoint(args)
    else if typeName == "EDGE_CURVE" then ParseEdgeCurve(args)
    else if typeName == "ORIENTED_EDGE" then ParseOrientedEdge(args)
    else if typeName == "EDGE_LOOP" then ParseEdgeLoop(args)
    else if typeName == "FACE_OUTER_BOUND" then ParseFaceOuterBound(args)
    else ParseAdvancedFace(args)
  }

  /** The `switch (type)`: a known type is parsed, any other type yields nothing. */
  function ParseArgs(typeName: string, args: string, lit: Lit): (r: Result<Option<Entity>, ParseError>)
    ensures !Known(typeName) ==> r == Success(None)
    ensures Known(typeName) ==> r.Failure? || r.value.Some?
  {
    if !Known(typeName) then Success(None)
    else
      match ParseKnown(typeName, args, lit)
      case Failure(e) => Failure(e)
      case Success(v) => Success(Some(v))
  }

  // ---------------------------------------------------------------------------
  // Canonical text, and reading it back.

  /** The STEP type name of an entity. */
  function TypeName(e: Entity): (r: string)
    ensures Known(r)
  {
    match e
    case PointEntity(_) => "CARTESIAN_POINT"
    case VertexEntity(_) => "VERTEX_POINT"
    case CurveEntity(_) => "EDGE_CURVE"
    case OrientedEdgeEntity(_) => "ORIENTED_EDGE"
    case LoopEntity(_) => "EDGE_LOOP"
    case BoundEntity(_) => "FACE_OUTER_BOUND"
    case FaceEntity(_) => "ADVANCED_FACE"
  }

  function ShowRef(id: nat): string {
    "#" + ShowNat(id)
  }

  /** The references of `ids`, one text per id. */
  function RefTexts(ids: seq<nat>): (r: seq<string>)
    ensures |r| == |ids|
  {
    seq(|ids|, i requires 0 <= i < |ids| => ShowRef(ids[i]))
  }

  /** `#a,#b,...`, and the empty text for no ids. */
  function ShowRefs(ids: seq<nat>): string {
    if ids == [] then [] else Join(RefTexts(ids), ',')
  }

  /** The arguments of a topological entity as an exporter writes them, with an empty name. */
  function RenderArgs(e: Entity): string
    requires !e.PointEntity?
  {
    match e
    case VertexEntity(p) => "''" + Render(VertexPointTail, [Number(p)])
    case CurveEntity(c) => "''" + Render(EdgeCurveTail, CurveCaptures(c))
    case OrientedEdgeEntity(o) => "''" + Render(OrientedEdgeTail, OrientedEdgeCaptures(o))
    case LoopEntity(ids) => "''" + Render(EdgeLoopTail, [Text(ShowRefs(ids))])
    case BoundEntity(b) => "''" + Render(FaceOuterBoundTail, BoundCaptures(b))
    case FaceEntity(f) => "''" + Render(AdvancedFaceTail, FaceCaptures(f))
  }

  /** The arguments of a point with the given numerals: `'',(x,y,z)`. */
  function RenderPointArgs(x: string, y: string, z: string): string {
    "''," + "(" + Render(PointTail, [Text(x), Text(y), Text(z)])
  }

  // ---------------------------------------------------------------------------
  // Each field reads back what it renders.

  /** The separator and a reference are plain text. */
  lemma {:induction false} RefTextPlain(n: nat)
    ensures PlainText(",#" + ShowNat(n))
  {
    var d := ShowNat(n);
    assert forall i | 2 <= i < |",#" + d| :: (",#" + d)[i] == d[i - 2];
  }

  /** A field behind the separator: it fits as before and leads with the comma. */
  lemma {:induction false} CommaFits(pat: seq<Elem>, caps: seq<Capture>, follow: Option<char>)
    requires Fits(pat, caps, follow) && Lead(pat, caps, follow).Some? && !IsSpace(Lead(pat, caps, follow).value)
    ensures Fits(Comma + pat, caps, follow) && Lead(Comma + pat, caps, follow) == Some(',')
    ensures Render(Comma + pat, caps) == "," + Render(pat, caps)
  {
    var p1 := [Space] + pat;
    var p2 := [Char(',')] + p1;
    FitsCons(Space, pat, caps, follow);
    FitsCons(Char(','), p1, caps, follow);
    FitsCons(Space, p2, caps, follow);
    assert Comma + pat == [Space] + p2;
  }

  lemma {:induction false} RefFieldFits(n: nat, follow: Option<char>)
    requires follow.None? || !IsDigit(follow.value)
    ensures Fits(RefField, [Number(n)], follow) && Lead(RefField, [Number(n)], follow) == Some(',')
    ensures Render(RefField, [Number(n)]) == ",#" + ShowNat(n) && PlainText(",#" + ShowNat(n))
  {
    var ref := [Char('#'), Id];
    assert ref[1..] == [Id];
    assert Fits(ref, [Number(n)], follow) && Lead(ref, [Number(n)], follow) == Some('#');
    assert Render(ref, [Number(n)]) == "#" + ShowNat(n);
    CommaFits(ref, [Number(n)], follow);
    assert Comma + ref == RefField;
    RefTextPlain(n);
  }

  lemma {:induction false} FlagFieldFits(b: bool, follow: Option<char>)
    ensures Fits(FlagField, [Truth(b)], follow) && Lead(FlagField, [Truth(b)], follow) == Some(',')
    ensures PlainText(Render(FlagField, [Truth(b)]))
  {
    var flag := [Flag];
    assert Fits(flag, [Truth(b)], follow) && Lead(flag, [Truth(b)], follow) == Some('.');
    CommaFits(flag, [Truth(b)], follow);
    assert Comma + flag == FlagField;
  }

  lemma {:induction false} StarFieldFits(follow: Option<char>)
    ensures Fits(StarField, [], follow) && Lead(StarField, [], follow) == Some(',')
    ensures PlainText(Render(StarField, []))
  {
    var star := [Char('*')];
    assert Fits(star, [], follow) && Lead(star, [], follow) == Some('*');
    CommaFits(star, [], follow);
    assert Comma + star == StarField;
  }

  /** A list without quotes or line ends renders as plain text. */
  lemma {:induction false} ListTextPlain(t: string)
    requires PlainText(t)
    ensures PlainText(",(" + t + ")")
  {
    var r := ",(" + t + ")";
    assert forall i | 2 <= i < |r| - 1 :: r[i] == t[i - 2];
  }

  lemma {:induction false} ListFieldFits(t: string, follow: Option<char>)
    requires PlainText(t) && forall i | 0 <= i < |t| :: t[i] != ')'
    ensures Fits(ListField, [Text(t)], follow) && Lead(ListField, [Text(t)], follow) == Some(',')
    ensures Render(ListField, [Text(t)]) == ",(" + t + ")" && PlainText(",(" + t + ")")
  {
    var list := [Char('('), Group];
    assert list[1..] == [Group];
    assert Fits(list, [Text(t)], follow) && Lead(list, [Text(t)], follow) == Some('(');
    assert Render(list, [Text(t)]) == "(" + t + ")";
    CommaFits(list, [Text(t)], follow);
    assert Comma + list == ListField;
    ListTextPlain(t);
  }

  /** The coordinate fields: a non-empty numeral, stopped by a character that is not part of one. */
  predicate NumeralText(t: string) {
    t != [] && forall i | 0 <= i < |t| :: IsNumeralChar(t[i])
  }

  lemma {:induction false} FirstCoordFits(t: string, follow: Option<char>)
    requires NumeralText(t) && (follow.None? || !IsNumeralChar(follow.value))
    ensures Fits(FirstCoord, [Text(t)], follow) && Lead(FirstCoord, [Text(t)], follow) == Some(t[0])
    ensures Render(FirstCoord, [Text(t)]) == t && PlainText(t)
  {
    assert FirstCoord[1..] == [Numeral];
  }

  lemma {:induction false} NextCoordFits(t: string, follow: Option<char>)
    requires NumeralText(t) && (follow.None? || !IsNumeralChar(follow.value))
    ensures Fits(NextCoord, [Text(t)], follow) && Lead(NextCoord, [Text(t)], follow) == Some(',')
    ensures Render(NextCoord, [Text(t)]) == "," + t && PlainText("," + t)
  {
    var coord := [Numeral];
    assert forall i | 1 <= i < |"," + t| :: ("," + t)[i] == t[i - 1];
    assert Fits(coord, [Text(t)], follow) && Lead(coord, [Text(t)], follow) == Some(t[0]);
    assert IsNumeralChar(t[0]);
    CommaFits(coord, [Text(t)], follow);
    assert Comma + coord == NextCoord;
  }

  lemma {:induction false} PointCloseFits()
    ensures Fits(PointClose, [], None) && Lead(PointClose, [], None) == Some(')')
    ensures Render(PointClose, []) == ")" && PlainText(")")
  {
    assert PointClose[1..] == [Char(')'), Space, End];
    assert PointClose[2..] == [Space, End];
    assert PointClose[3..] == [End];
  }

  // ---------------------------------------------------------------------------
  // Reference lists read back.

  /** A rendered reference is read back as its id. */
  lemma {:induction false} RefRoundTrip(n: nat)
    ensures Trim(ShowRef(n)) == ShowRef(n)
    ensures RefId(ShowRef(n)) == Some(n)
  {
    RefTrimmed(n);
    RefPatternRenders(n);
    MatchRender(RefPattern, [Number(n)], []);
    assert ShowRef(n) + [] == ShowRef(n);
  }

  /** A rendered reference has no white space at either end. */
  lemma {:induction false} RefTrimmed(n: nat)
    ensures Trim(ShowRef(n)) == ShowRef(n)
  {
    var t := ShowRef(n);
    assert t[|t| - 1] == ShowNat(n)[|ShowNat(n)| - 1];
    assert [] + t + [] == t;
    TrimPadded([], t, []);
  }

  /** `#n` is what the reference pattern renders from the capture n. */
  lemma {:induction false} RefPatternRenders(n: nat)
    ensures Fits(RefPattern, [Number(n)], None) && Render(RefPattern, [Number(n)]) == ShowRef(n)
  {
    assert RefPattern[1..] == [Id, End];
    assert RefPattern[2..] == [End];
    assert Fits(RefPattern, [Number(n)], None);
  }

  lemma {:induction false} ParseRefTexts(ids: seq<nat>, typeName: string)
    ensures ParseRefs(RefTexts(ids), typeName) == Success(ids)
    decreases |ids|
  {
    if ids != [] {
      assert RefTexts(ids)[0] == ShowRef(ids[0]);
      assert RefTexts(ids)[1..] == RefTexts(ids[1..]);
      RefRoundTrip(ids[0]);
      ParseRefTexts(ids[1..], typeName);
      assert [ids[0]] + ids[1..] == ids;
    }
  }

  /** `#a,#b,...` is read back as the list of ids, the empty text as no ids. */
  lemma {:induction false} RefListRoundTrip(ids: seq<nat>, typeName: string)
    ensures ParseRefList(ShowRefs(ids), typeName) == Success(ids)
  {
    if ids == [] {
      var none: seq<string> := [[]];
      assert Split([], ',') == none;
      assert Trim(none[0]) == [] && none[1..] == [];
    } else {
      forall i | 0 <= i < |ids|
        ensures ',' !in RefTexts(ids)[i]
      {
        assert RefTexts(ids)[i] == "#" + ShowNat(ids[i]);
      }
      JoinSplit(RefTexts(ids), ',');
      ParseRefTexts(ids, typeName);
    }
  }

  /** `pieces.map(trim).filter(Boolean)`: the trimmed pieces that are not empty, in order. */
  function Kept(pieces: seq<string>): (r: seq<string>)
    ensures |r| <= |pieces|
    ensures forall k | 0 <= k < |r| :: r[k] != [] && Trim(r[k]) == r[k]
    decreases |pieces|
  {
    if pieces == [] then []
    else
      var t := Trim(pieces[0]);
      TrimIdempotent(pieces[0]);
      if t == [] then Kept(pieces[1..]) else [t] + Kept(pieces[1..])
  }

  /**
   * The list parses exactly when every kept piece is a reference `#n`, and then
   * to those references in order; white space around a piece and empty pieces
   * do not matter.
   */
  lemma {:induction false} ParseRefsKept(pieces: seq<string>, typeName: string)
    ensures ParseRefs(pieces, typeName).Success? <==> forall k | 0 <= k < |Kept(pieces)| :: RefId(Kept(pieces)[k]).Some?
    ensures ParseRefs(pieces, typeName).Success? ==>
      var ids := ParseRefs(pieces, typeName).value;
      |ids| == |Kept(pieces)| && forall k | 0 <= k < |ids| :: RefId(Kept(pieces)[k]) == Some(ids[k])
    decreases |pieces|
  {
    if pieces != [] {
      var t := Trim(pieces[0]);
      var rest := Kept(pieces[1..]);
      ParseRefsKept(pieces[1..], typeName);
      if t == [] {
        ParseRefsSkip(pieces, typeName);
      } else {
        KeptHead(pieces);
        assert Kept(pieces)[0] == t;
        if RefId(t).None? {
          ParseRefsHeadBad(pieces, typeName);
        } else {
          ParseRefsHeadGood(pieces, typeName);
          match ParseRefs(pieces[1..], typeName)
          case Failure(e) =>
            var k :| 0 <= k < |rest| && RefId(rest[k]).None?;
            assert Kept(pieces)[k + 1] == rest[k];
          case Success(ids) =>
            RefsCons(t, rest, RefId(t).value, ids);
        }
      }
    }
  }

  lemma {:induction false} RefsCons(t: string, rest: seq<string>, id: nat, ids: seq<nat>)
    requires RefId(t) == Some(id) && |ids| == |rest|
    requires forall k | 0 <= k < |ids| :: RefId(rest[k]) == Some(ids[k])
    ensures forall k | 0 <= k < |ids| + 1 :: RefId(([t] + rest)[k]) == Some(([id] + ids)[k])
  {
    forall k | 0 <= k < |ids| + 1
      ensures RefId(([t] + rest)[k]) == Some(([id] + ids)[k])
    {
      if k > 0 {
        assert ([t] + rest)[k] == rest[k - 1] && ([id] + ids)[k] == ids[k - 1];
      }
    }
  }

  /** A piece that trims to nothing is dropped: it neither throws nor yields an id. */
  lemma {:induction false} ParseRefsSkip(pieces: seq<string>, typeName: string)
    requires pieces != [] && Trim(pieces[0]) == []
    ensures Kept(pieces) == Kept(pieces[1..])
    ensures ParseRefs(pieces, typeName) == ParseRefs(pieces[1..], typeName)
  {
  }

  /** A leading piece that is not a reference is thrown, trimmed. */
  lemma {:induction false} ParseRefsHeadBad(pieces: seq<string>, typeName: string)
    requires pieces != [] && Trim(pieces[0]) != [] && RefId(Trim(pieces[0])).None?
    ensures Kept(pieces) == [Trim(pieces[0])] + Kept(pieces[1..])
    ensures ParseRefs(pieces, typeName) == Failure(InvalidRef(typeName, Trim(pieces[0])))
  {
  }

  /** After a leading reference, the list's outcome is the rest's, with the reference's id in front. */
  lemma {:induction false} ParseRefsHeadGood(pieces: seq<string>, typeName: string)
    requires pieces != [] && Trim(pieces[0]) != [] && RefId(Trim(pieces[0])).Some?
    ensures Kept(pieces) == [Trim(pieces[0])] + Kept(pieces[1..])
    ensures ParseRefs(pieces[1..], typeName).Failure? ==> ParseRefs(pieces, typeName) == ParseRefs(pieces[1..], typeName)
    ensures ParseRefs(pieces[1..], typeName).Success? ==>
      ParseRefs(pieces, typeName) == Success([RefId(Trim(pieces[0])).value] + ParseRefs(pieces[1..], typeName).value)
  {
  }

  /** The first k kept pieces are all references `#n`. */
  predicate RefsUpTo(kept: seq<string>, k: nat)
    requires k <= |kept|
  {
    forall j | 0 <= j < k :: RefId(kept[j]).Some?
  }

  /** The first kept piece that is not a reference `#n` is thrown, trimmed, as an invalid reference. */
  lemma {:induction false} ParseRefsFirstBad(pieces: seq<string>, typeName: string, k: nat)
    requires k < |Kept(pieces)| && RefId(Kept(pieces)[k]).None? && RefsUpTo(Kept(pieces), k)
    ensures ParseRefs(pieces, typeName) == Failure(InvalidRef(typeName, Kept(pieces)[k]))
    decreases |pieces|, 1
  {
    if Trim(pieces[0]) == [] {
      ParseRefsSkip(pieces, typeName);
      ParseRefsFirstBad(pieces[1..], typeName, k);
    } else if k == 0 {
      ParseRefsHeadBad(pieces, typeName);
    } else {
      ParseRefsLaterBad(pieces, typeName, k);
    }
  }

  /** Behind a leading reference, the first non-reference is found in the rest of the list. */
  lemma {:induction false} ParseRefsLaterBad(pieces: seq<string>, typeName: string, k: nat)
    requires pieces != [] && Trim(pieces[0]) != [] && 0 < k < |Kept(pieces)|
    requires RefId(Kept(pieces)[k]).None? && RefsUpTo(Kept(pieces), k)
    ensures ParseRefs(pieces, typeName) == Failure(InvalidRef(typeName, Kept(pieces)[k]))
    decreases |pieces|, 0
  {
    KeptHead(pieces);
    RefsShift(Kept(pieces), Trim(pieces[0]), Kept(pieces[1..]), k);
    ParseRefsFirstBad(pieces[1..], typeName, k - 1);
    ParseRefsHeadGood(pieces, typeName);
  }

  /** A piece that trims to something is kept, in front of the pieces kept after it. */
  lemma {:induction false} KeptHead(pieces: seq<string>)
    requires pieces != [] && Trim(pieces[0]) != []
    ensures Kept(pieces) == [Trim(pieces[0])] + Kept(pieces[1..])
  {
  }

  /** The first non-reference at k > 0 of `[t] + rest` is the first non-reference at k - 1 of `rest`. */
  lemma {:induction false} RefsShift(kept: seq<string>, t: string, rest: seq<string>, k: nat)
    requires kept == [t] + rest && 0 < k < |kept|
    requires RefId(kept[k]).None? && RefsUpTo(kept, k)
    ensures RefId(t).Some? && k - 1 < |rest| && kept[k] == rest[k - 1] && RefId(rest[k - 1]).None?
    ensures RefsUpTo(rest, k - 1)
  {
    assert kept[0] == t;
    forall j | 0 <= j < k - 1
      ensures RefId(rest[j]).Some?
    {
      assert kept[j + 1] == rest[j];
    }
  }

  /** Every character of the rendered list is a comma, a `#` or a digit. */
  lemma {:induction false} ShowRefsChars(ids: seq<nat>)
    ensures forall i | 0 <= i < |ShowRefs(ids)| :: ShowRefs(ids)[i] == ',' || ShowRefs(ids)[i] == '#' || IsDigit(ShowRefs(ids)[i])
  {
    forall i | 0 <= i < |ShowRefs(ids)|
      ensures ShowRefs(ids)[i] == ',' || ShowRefs(ids)[i] == '#' || IsDigit(ShowRefs(ids)[i])
    {
      JoinChars(RefTexts(ids), i);
    }
  }

  /** The rendered list has no white space at either end. */
  lemma {:induction false} ShowRefsTrimmed(ids: seq<nat>)
    ensures Trim(ShowRefs(ids)) == ShowRefs(ids)
  {
    var t := ShowRefs(ids);
    if t != [] {
      JoinEnds(RefTexts(ids));
    }
    assert [] + t + [] == t;
    TrimPadded([], t, []);
  }

  /** The rendered list is plain text without `)`, and has no white space at either end. */
  lemma {:induction false} ShowRefsText(ids: seq<nat>)
    ensures PlainText(ShowRefs(ids)) && forall i | 0 <= i < |ShowRefs(ids)| :: ShowRefs(ids)[i] != ')'
    ensures Trim(ShowRefs(ids)) == ShowRefs(ids)
  {
    ShowRefsChars(ids);
    ShowRefsTrimmed(ids);
  }

  /** Every character of the joined references is a comma, a `#` or a digit. */
  lemma {:induction false} JoinChars(texts: seq<string>, i: nat)
    requires |texts| >= 1 && i < |Join(texts, ',')|
    requires forall k | 0 <= k < |texts| :: texts[k] != [] && texts[k][0] == '#' && AllDigits(texts[k][1..])
    ensures Join(texts, ',')[i] == ',' || Join(texts, ',')[i] == '#' || IsDigit(Join(texts, ',')[i])
    decreases |texts|
  {
    var t0 := texts[0];
    assert t0[0] == '#' && AllDigits(t0[1..]);
    if i > 0 && i < |t0| {
      assert t0[i] == t0[1..][i - 1];
    }
    if |texts| > 1 && i > |t0| {
      JoinChars(texts[1..], i - |t0| - 1);
    }
  }

  /** The joined references start with `#` and end with a digit. */
  lemma {:induction false} JoinEnds(texts: seq<string>)
    requires |texts| >= 1
    requires forall k | 0 <= k < |texts| :: |texts[k]| >= 2 && texts[k][0] == '#' && IsDigit(texts[k][|texts[k]| - 1])
    ensures |Join(texts, ',')| >= 2
    ensures Join(texts, ',')[0] == '#' && IsDigit(Join(texts, ',')[|Join(texts, ',')| - 1])
    decreases |texts|
  {
    if |texts| > 1 {
      JoinEnds(texts[1..]);
    }
  }

  // ---------------------------------------------------------------------------
  // Each parser reads back the arguments an exporter writes.

  lemma {:induction false} VertexRoundTrip(p: nat)
    ensures ParseVertexPoint(RenderArgs(VertexEntity(p))) == Success(VertexEntity(p))
  {
    RefFieldFits(p, None);
    SearchQuotedRender(VertexPointTail, [Number(p)]);
  }

  function CurveCaptures(c: EdgeCurve): seq<Capture> {
    [Number(c.startVertexId), Number(c.endVertexId), Number(c.curveId), Truth(c.sameSense)]
  }

  /** A reference field ahead of fields that start with a comma. */
  lemma {:induction false} RefPrefixFits(n: nat, pat: seq<Elem>, caps: seq<Capture>)
    requires Fits(pat, caps, None) && Lead(pat, caps, None) == Some(',') && PlainText(Render(pat, caps))
    ensures Fits(RefField + pat, [Number(n)] + caps, None) && Lead(RefField + pat, [Number(n)] + caps, None) == Some(',')
    ensures PlainText(Render(RefField + pat, [Number(n)] + caps))
  {
    RefFieldFits(n, Some(','));
    Concat(RefField, [Number(n)], pat, caps, None);
  }

  /** A reference field and a flag field: `,#id,.T.`. */
  lemma {:induction false} RefFlagFits(n: nat, b: bool)
    ensures Fits(RefField + FlagField, [Number(n), Truth(b)], None)
    ensures Lead(RefField + FlagField, [Number(n), Truth(b)], None) == Some(',')
    ensures PlainText(Render(RefField + FlagField, [Number(n), Truth(b)]))
  {
    FlagFieldFits(b, None);
    RefPrefixFits(n, FlagField, [Truth(b)]);
    assert [Number(n)] + [Truth(b)] == [Number(n), Truth(b)];
  }

  lemma {:induction false} CurveTailFits(c: EdgeCurve)
    ensures Fits(EdgeCurveTail, CurveCaptures(c), None) && PlainText(Render(EdgeCurveTail, CurveCaptures(c)))
  {
    var tail := [Number(c.curveId), Truth(c.sameSense)];
    RefFlagFits(c.curveId, c.sameSense);
    RefPrefixFits(c.endVertexId, RefField + FlagField, tail);
    RefPrefixFits(c.startVertexId, RefField + (RefField + FlagField), [Number(c.endVertexId)] + tail);
    assert [Number(c.startVertexId)] + ([Number(c.endVertexId)] + tail) == CurveCaptures(c);
  }

  lemma {:induction false} CurveRoundTrip(c: EdgeCurve)
    ensures ParseEdgeCurve(RenderArgs(CurveEntity(c))) == Success(CurveEntity(c))
  {
    var caps := CurveCaptures(c);
    assert SearchQuoted(RenderArgs(CurveEntity(c)), EdgeCurveTail) == Some(caps) by {
      CurveTailFits(c);
      SearchQuotedRender(EdgeCurveTail, caps);
    }
  }

  function OrientedEdgeCaptures(o: OrientedEdge): seq<Capture> {
    [Number(o.edgeElementId), Truth(o.orientation)]
  }

  lemma {:induction false} OrientedEdgeTailFits(o: OrientedEdge)
    ensures Fits(OrientedEdgeTail, OrientedEdgeCaptures(o), None)
    ensures PlainText(Render(OrientedEdgeTail, OrientedEdgeCaptures(o)))
  {
    var c3, c4 := [Number(o.edgeElementId)], [Truth(o.orientation)];
    FlagFieldFits(o.orientation, None);
    RefFieldFits(o.edgeElementId, Some(','));
    Concat(RefField, c3, FlagField, c4, None);
    StarFieldFits(Some(','));
    Concat(StarField, [], RefField + FlagField, c3 + c4, None);
    Concat(StarField, [], StarField + (RefField + FlagField), [] + (c3 + c4), None);
    assert [] + ([] + (c3 + c4)) == OrientedEdgeCaptures(o);
  }

  lemma {:induction false} OrientedEdgeRoundTrip(o: OrientedEdge)
    ensures ParseOrientedEdge(RenderArgs(OrientedEdgeEntity(o))) == Success(OrientedEdgeEntity(o))
  {
    var caps := OrientedEdgeCaptures(o);
    assert SearchQuoted(RenderArgs(OrientedEdgeEntity(o)), OrientedEdgeTail) == Some(caps) by {
      OrientedEdgeTailFits(o);
      SearchQuotedRender(OrientedEdgeTail, caps);
    }
  }

  lemma {:induction false} LoopRoundTrip(ids: seq<nat>)
    ensures ParseEdgeLoop(RenderArgs(LoopEntity(ids))) == Success(LoopEntity(ids))
  {
    var t := ShowRefs(ids);
    ShowRefsText(ids);
    ListFieldFits(t, None);
    SearchQuotedRender(EdgeLoopTail, [Text(t)]);
    var args := RenderArgs(LoopEntity(ids));
    assert args == "''" + Render(EdgeLoopTail, [Text(t)]);
    assert SearchQuoted(args, EdgeLoopTail) == Some([Text(t)]);
    assert TextAt([Text(t)], 0) == t && Trim(t) == t;
    RefListRoundTrip(ids, "EDGE_LOOP");
  }

  function BoundCaptures(b: FaceOuterBound): seq<Capture> {
    [Number(b.loopId), Truth(b.orientation)]
  }

  lemma {:induction false} BoundTailFits(b: FaceOuterBound)
    ensures Fits(FaceOuterBoundTail, BoundCaptures(b), None)
    ensures PlainText(Render(FaceOuterBoundTail, BoundCaptures(b)))
  {
    RefFlagFits(b.loopId, b.orientation);
  }

  lemma {:induction false} BoundRoundTrip(b: FaceOuterBound)
    ensures ParseFaceOuterBound(RenderArgs(BoundEntity(b))) == Success(BoundEntity(b))
  {
    var caps := BoundCaptures(b);
    assert SearchQuoted(RenderArgs(BoundEntity(b)), FaceOuterBoundTail) == Some(caps) by {
      BoundTailFits(b);
      SearchQuotedRender(FaceOuterBoundTail, caps);
    }
  }

  function FaceCaptures(f: AdvancedFace): seq<Capture> {
    [Text(ShowRefs(f.boundIds)), Number(f.surfaceId), Truth(f.sameSense)]
  }

  lemma {:induction false} FaceTailFits(f: AdvancedFace)
    ensures Fits(AdvancedFaceTail, FaceCaptures(f), None) && PlainText(Render(AdvancedFaceTail, FaceCaptures(f)))
  {
    var c1, tail := [Text(ShowRefs(f.boundIds))], [Number(f.surfaceId), Truth(f.sameSense)];
    RefFlagFits(f.surfaceId, f.sameSense);
    ShowRefsText(f.boundIds);
    ListFieldFits(ShowRefs(f.boundIds), Some(','));
    Concat(ListField, c1, RefField + FlagField, tail, None);
    assert c1 + tail == FaceCaptures(f);
  }

  lemma {:induction false} FaceRoundTrip(f: AdvancedFace)
    ensures ParseAdvancedFace(RenderArgs(FaceEntity(f))) == Success(FaceEntity(f))
  {
    var caps := FaceCaptures(f);
    assert SearchQuoted(RenderArgs(FaceEntity(f)), AdvancedFaceTail) == Some(caps) by {
      FaceTailFits(f);
      SearchQuotedRender(AdvancedFaceTail, caps);
    }
    assert TextAt(caps, 0) == ShowRefs(f.boundIds);
    RefListRoundTrip(f.boundIds, "ADVANCED_FACE");
    assert AdvancedFace(f.boundIds, NumberAt(caps, 1), TruthAt(caps, 2)) == f;
  }

  lemma {:induction false} PointTailFits(x: string, y: string, z: string)
    requires NumeralText(x) && NumeralText(y) && NumeralText(z)
    ensures Fits(PointTail, [Text(x), Text(y), Text(z)], None)
    ensures PlainText(Render(PointTail, [Text(x), Text(y), Text(z)]))
  {
    var c1, c2, c3 := [Text(x)], [Text(y)], [Text(z)];
    PointCloseFits();
    NextCoordFits(z, Some(')'));
    Concat(NextCoord, c3, PointClose, [], None);
    NextCoordFits(y, Some(','));
    Concat(NextCoord, c2, NextCoord + PointClose, c3 + [], None);
    FirstCoordFits(x, Some(','));
    Concat(FirstCoord, c1, NextCoord + (NextCoord + PointClose), c2 + (c3 + []), None);
    assert c1 + (c2 + (c3 + [])) == [Text(x), Text(y), Text(z)];
  }

  /** A point written as `'',(x,y,z)` is read back with `parseFloat` of each numeral. */
  lemma {:induction false} PointRoundTrip(x: string, y: string, z: string, lit: Lit)
    requires NumeralText(x) && NumeralText(y) && NumeralText(z)
    ensures ParseCartesianPoint(RenderPointArgs(x, y, z), lit) == Success(PointEntity(Vec3(lit(x), lit(y), lit(z))))
  {
    var caps := [Text(x), Text(y), Text(z)];
    assert SearchAfter(RenderPointArgs(x, y, z), '(', PointTail, 0) == Some(caps) by {
      PointTailFits(x, y, z);
      SearchAfterRender("'',", '(', PointTail, caps);
      assert "''," + "(" + Render(PointTail, caps) == "''," + ['('] + Render(PointTail, caps);
    }
  }

  /** Each entity's type name is handed to that entity's parser. */
  lemma {:induction false} KnownDispatch(e: Entity, args: string, lit: Lit)
    ensures ParseKnown(TypeName(e), args, lit) == match e
      case PointEntity(_) => ParseCartesianPoint(args, lit)
      case VertexEntity(_) => ParseVertexPoint(args)
      case CurveEntity(_) => ParseEdgeCurve(args)
      case OrientedEdgeEntity(_) => ParseOrientedEdge(args)
      case LoopEntity(_) => ParseEdgeLoop(args)
      case BoundEntity(_) => ParseFaceOuterBound(args)
      case FaceEntity(_) => ParseAdvancedFace(args)
  {
  }

  /** Every topological entity is read back from its canonical arguments by the parser of its type. */
  lemma {:induction false} ArgsRoundTrip(e: Entity, lit: Lit)
    requires !e.PointEntity?
    ensures ParseArgs(TypeName(e), RenderArgs(e), lit) == Success(Some(e))
  {
    var args := RenderArgs(e);
    KnownDispatch(e, args, lit);
    assert ParseKnown(TypeName(e), args, lit) == Success(e) by {
      match e
      case VertexEntity(p) => VertexRoundTrip(p);
      case CurveEntity(c) => CurveRoundTrip(c);
      case OrientedEdgeEntity(o) => OrientedEdgeRoundTrip(o);
      case LoopEntity(ids) => LoopRoundTrip(ids);
      case BoundEntity(b) => BoundRoundTrip(b);
      case FaceEntity(f) => FaceRoundTrip(f);
    }
  }
}
