/**
 * Static reflection utilities: the primitive boxing table, annotation
 * lookup, and the parameter-list comparison that every constructor and
 * method lookup goes through.
 */
module ReflectUtil {
  import opened Jvm

  // ---------------------------------------------------------------------
  // The boxing table
  // ---------------------------------------------------------------------

  /** The contents of the static boxing map: each primitive kind to its box. */
  function BoxingTable(): map<Type, Type> {
    map[Primitive(Boolean) := BoxOf(Boolean),
        Primitive(Byte) := BoxOf(Byte),
        Primitive(Short) := BoxOf(Short),
        Primitive(Char) := BoxOf(Char),
        Primitive(Int) := BoxOf(Int),
        Primitive(Long) := BoxOf(Long),
        Primitive(Float) := BoxOf(Float),
        Primitive(Double) := BoxOf(Double)]
  }

  /** The table holds exactly the eight primitive classes, void excluded. */
  lemma BoxingTableExact(t: Type)
    ensures t in BoxingTable() <==> t.Primitive?
    ensures t.Primitive? ==> BoxingTable()[t] == BoxOf(t.kind)
  {
    if t.Primitive? {
      match t.kind
      case Boolean => case Byte => case Short => case Char =>
      case Int => case Long => case Float => case Double =>
    }
  }

  /** The static initialiser: an empty map filled by one put per primitive. */
  method InitBoxing() returns (boxing: map<Type, Type>)
    ensures forall t :: t in boxing <==> t.Primitive?
    ensures forall k :: boxing[Primitive(k)] == BoxOf(k)
    ensures boxing == BoxingTable()
  {
    boxing := map[];
    boxing := boxing[Primitive(Boolean) := ClassType("java.lang.Boolean")];
    boxing := boxing[Primitive(Byte) := ClassType("java.lang.Byte")];
    boxing := boxing[Primitive(Short) := ClassType("java.lang.Short")];
    boxing := boxing[Primitive(Char) := ClassType("java.lang.Character")];
    boxing := boxing[Primitive(Int) := ClassType("java.lang.Integer")];
    boxing := boxing[Primitive(Long) := ClassType("java.lang.Long")];
    boxing := boxing[Primitive(Float) := ClassType("java.lang.Float")];
    boxing := boxing[Primitive(Double) := ClassType("java.lang.Double")];
    forall t ensures t in boxing <==> t.Primitive? {
      BoxingTableExact(t);
    }
  }

  /** getBoxing: the table lookup; null (None) for anything not in it. */
  function GetBoxing(primitive: Type): (r: Option<Type>)
    ensures r.Some? <==> primitive.Primitive?
    ensures r.Some? ==> r.value == BoxOf(primitive.kind) && !IsPrimitive(r.value)
  {
    BoxingTableExact(primitive);
    if primitive in BoxingTable() then Some(BoxingTable()[primitive]) else None
  }

  /** void is primitive, but has no box. */
  lemma VoidHasNoBox()
    ensures IsPrimitive(Void) && GetBoxing(Void) == None
  {
  }

  // ---------------------------------------------------------------------
  // Annotations
  // ---------------------------------------------------------------------

  /** hasAnnotation(Annotation[], Class): some annotation's type is exactly clazz. */
  function HasAnnotation(annotations: seq<Annotation>, clazz: Type): (b: bool)
    ensures b <==> exists i :: 0 <= i < |annotations| && annotations[i].annotationType == clazz
  {
    if annotations == [] then false
    else if annotations[0].annotationType == clazz then true
    else
      var rest := HasAnnotation(annotations[1..], clazz);
      assert forall i :: 0 < i < |annotations| ==> annotations[i] == annotations[1..][i - 1];
      rest
  }

  /** hasAnnotation(Method, Class): the same test on the method's annotations. */
  function HasMethodAnnotation(m: Method, clazz: Type): (b: bool)
    ensures b <==> exists a :: a in m.annotations && a.annotationType == clazz
  {
    HasAnnotation(m.annotations, clazz)
  }

  /** The position of the first annotation whose type clazz is assignable from. */
  function AssignableIndex(af: Assignability, annotations: seq<Annotation>, clazz: Type): (k: nat)
    ensures k <= |annotations|
    ensures forall j :: 0 <= j < k ==> !af(clazz, annotations[j].annotationType)
    ensures k < |annotations| ==> af(clazz, annotations[k].annotationType)
  {
    if annotations == [] then 0
    else if af(clazz, annotations[0].annotationType) then 0
    else 1 + AssignableIndex(af, annotations[1..], clazz)
  }

  /**
   * getAnnotation: the first annotation whose type is assignable to clazz;
   * IllegalArgumentException when there is none.
   */
  function GetAnnotation(af: Assignability, annotations: seq<Annotation>, clazz: Type): (r: Result<Annotation>)
    ensures r.Err? <==> forall i :: 0 <= i < |annotations| ==> !af(clazz, annotations[i].annotationType)
    ensures r.Err? ==> r.error == IllegalArgument
    ensures r.Ok? ==> exists k :: 0 <= k < |annotations| && annotations[k] == r.value
                        && af(clazz, annotations[k].annotationType)
                        && forall j :: 0 <= j < k ==> !af(clazz, annotations[j].annotationType)
  {
    var k := AssignableIndex(af, annotations, clazz);
    if k < |annotations| then Ok(annotations[k]) else Err(IllegalArgument)
  }

  /** An exact match is also an assignable one, so hasAnnotation guards getAnnotation. */
  lemma HasAnnotationThenGetSucceeds(af: Assignability, annotations: seq<Annotation>, clazz: Type)
    requires Reflexive(af)
    requires HasAnnotation(annotations, clazz)
    ensures GetAnnotation(af, annotations, clazz).Ok?
  {
    var i :| 0 <= i < |annotations| && annotations[i].annotationType == clazz;
    assert af(clazz, annotations[i].annotationType);
  }

  // ---------------------------------------------------------------------
  // Parameter lists
  // ---------------------------------------------------------------------

  /**
   * The loop of compareParameters over two lists of equal length: it gives up
   * at the first position whose requested type is assignable from the
   * declared one.
   */
  function NoPositionRejected(af: Assignability, declared: seq<Type>, requested: seq<Type>): (b: bool)
    requires |declared| == |requested|
    ensures b <==> forall i :: 0 <= i < |declared| ==> !af(requested[i], declared[i])
  {
    if declared == [] then true
    else if af(requested[0], declared[0]) then false
    else
      var rest := NoPositionRejected(af, declared[1..], requested[1..]);
      assert forall i :: 0 < i < |declared| ==>
        declared[i] == declared[1..][i - 1] && requested[i] == requested[1..][i - 1];
      rest
  }

  /**
   * compareParameters(paramTypes, params) exactly as written: a null array on
   * either side matches anything, lists of different lengths never match, and
   * otherwise a position REJECTS when the requested type is assignable from
   * the declared type.
   */
  function CompareParameters(af: Assignability, declared: Option<seq<Type>>, requested: Option<seq<Type>>): (b: bool)
    ensures declared.None? || requested.None? ==> b
    ensures declared.Some? && requested.Some? && |declared.value| != |requested.value| ==> !b
    ensures declared.Some? && requested.Some? && |declared.value| == |requested.value| ==>
              (b <==> forall i :: 0 <= i < |declared.value| ==> !af(requested.value[i], declared.value[i]))
  {
    if declared.None? || requested.None? then true
    else if |declared.value| != |requested.value| then false
    else NoPositionRejected(af, declared.value, requested.value)
  }

  /** Two empty lists always match. */
  lemma EmptyListsMatch(af: Assignability)
    ensures CompareParameters(af, Some([]), Some([]))
  {
  }

  /**
   * Consequence of the inverted check: once assignability is reflexive, a
   * non-empty list never matches itself.
   */
  lemma IdenticalListsNeverMatch(af: Assignability, ps: seq<Type>)
    requires Reflexive(af)
    requires |ps| > 0
    ensures !CompareParameters(af, Some(ps), Some(ps))
  {
    assert af(ps[0], ps[0]);
  }

  /**
   * More generally, a non-empty requested list whose first type is a
   * supertype of the declared first type never matches — so a lookup only
   * succeeds when every requested type is NOT a supertype of what is
   * declared, the opposite of what a caller passing declared types expects.
   */
  lemma SupertypeRequestRejected(af: Assignability, declared: seq<Type>, requested: seq<Type>, i: nat)
    requires |declared| == |requested| && i < |declared|
    requires af(requested[i], declared[i])
    ensures !CompareParameters(af, Some(declared), Some(requested))
  {
  }
}
