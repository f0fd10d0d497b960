/** The control-plane fields that routing keeps in the reserved namespace of a context. */
module ControlPlane {
  import opened Base
  import opened ContextJson

  type Object = map<string, Json>

  function Namespace(): string { "ductile" }
  function InstanceField(): string { "pipeline_instance_id" }
  function DepthField(): string { "route_depth" }
  function MaxDepthField(): string { "route_max_depth" }

  lemma FieldsDiffer()
    ensures InstanceField() != DepthField() && DepthField() != MaxDepthField() && MaxDepthField() != InstanceField()
    ensures JoinPath(Namespace(), DepthField()) == RouteDepthPath()
    ensures JoinPath("", Namespace()) == Namespace() && !Mutable(Namespace())
    ensures !Mutable(JoinPath(Namespace(), InstanceField())) && !Mutable(JoinPath(Namespace(), MaxDepthField()))
  {
    assert |InstanceField()| == 20 && |DepthField()| == 11 && |MaxDepthField()| == 15;
    assert |JoinPath(Namespace(), InstanceField())| == 28 && |JoinPath(Namespace(), MaxDepthField())| == 23;
    assert |RouteDepthPath()| == 19 && |Namespace()| == 7;
  }

  // ---------------------------------------------------------------- readers

  function Plane(accumulated: Json): Object {
    if accumulated.Obj? && Namespace() in accumulated.fields && accumulated.fields[Namespace()].Obj?
    then accumulated.fields[Namespace()].fields
    else map[]
  }

  function IntField(plane: Object, field: string): int {
    if field in plane && plane[field].Num? then plane[field].n else 0
  }

  function InstanceOf(accumulated: Json): string {
    var plane := Plane(accumulated);
    if InstanceField() in plane && plane[InstanceField()].Str? then Trim(plane[InstanceField()].s) else ""
  }

  function DepthOf(accumulated: Json): int {
    IntField(Plane(accumulated), DepthField())
  }

  function MaxDepthOf(accumulated: Json): int {
    IntField(Plane(accumulated), MaxDepthField())
  }

  // ---------------------------------------------------------------- writers

  /** The namespace object of an update set; anything but an object or null there is refused. */
  function NestedPlane(updates: Object): Option<Object> {
    if Namespace() !in updates || updates[Namespace()] == Null then Some(map[])
    else if updates[Namespace()].Obj? then Some(updates[Namespace()].fields)
    else None
  }

  /** Sets one field unless the updates already hold another value for it. */
  function WithField(updates: Object, field: string, value: Json): Option<Object> {
    var plane := NestedPlane(updates);
    if plane.None? || (field in plane.value && plane.value[field] != value) then None
    else Some(updates[Namespace() := Obj(plane.value[field := value])])
  }

  function WithInstance(updates: Object, id: string): Option<Object> {
    if Trim(id) == "" then None else WithField(updates, InstanceField(), Str(Trim(id)))
  }

  function WithDepth(updates: Object, depth: int): Option<Object> {
    if depth < 0 then None else WithField(updates, DepthField(), Num(depth))
  }

  function WithMaxDepth(updates: Object, maxDepth: int): Option<Object> {
    if maxDepth <= 0 then None else WithField(updates, MaxDepthField(), Num(maxDepth))
  }

  // ---------------------------------------------------------------- well-formed namespaces

  /** The namespace as only the control plane writes it. */
  predicate PlaneOk(accumulated: Json) {
    accumulated.Obj? && (Namespace() in accumulated.fields ==> accumulated.fields[Namespace()].Obj?) &&
    var plane := Plane(accumulated);
    (DepthField() in plane ==> plane[DepthField()].Num? && plane[DepthField()].n >= 0) &&
    (MaxDepthField() in plane ==> plane[MaxDepthField()].Num? && plane[MaxDepthField()].n > 0) &&
    (InstanceField() in plane ==>
       plane[InstanceField()].Str? && plane[InstanceField()].s != "" && Trimmed(plane[InstanceField()].s))
  }

  /** Updates of route_depth as the program writes them, nested in the namespace. */
  function DepthUpdate(depth: Json): Json {
    Obj(map[Namespace() := Obj(map[DepthField() := depth])])
  }

  /** The depths that two routing steps stamp differ, so their order shows wherever both succeed. */
  lemma DepthUpdatesDoNotCommute(dst: Json, a: Json, b: Json)
    requires dst.Obj? && a != b && AccreteTwice(dst, DepthUpdate(a), DepthUpdate(b), "").Merged?
    ensures AccreteTwice(dst, DepthUpdate(a), DepthUpdate(b), "") !=
            AccreteTwice(dst, DepthUpdate(b), DepthUpdate(a), "")
  {
    FieldsDiffer();
    var u, v := DepthUpdate(a), DepthUpdate(b);
    var inner, inner' := u.fields[Namespace()], v.fields[Namespace()];
    assert inner.fields[DepthField()] != inner'.fields[DepthField()];
    assert !AgreeOnMutable(inner, inner', JoinPath("", Namespace()));
    assert !AgreeOnMutable(u, v, "");
    UpdatesCommute(dst, u, v, "");
    SameResultIff(dst, u, v, "");
  }

  // ---------------------------------------------------------------- reading what was written

  /** The namespace of an update set is free for this value: missing or null, or an object that has no
      other value for the field. */
  predicate FreeFor(updates: Object, field: string, value: Json) {
    Namespace() !in updates || updates[Namespace()] == Null ||
    (updates[Namespace()].Obj? &&
     (field in updates[Namespace()].fields ==> updates[Namespace()].fields[field] == value))
  }

  /** Each writer succeeds exactly on a value it accepts for which the namespace is free; its reader then
      gives the value back, and a context without the field reads as blank or zero. */
  lemma ReadBack(updates: Object, id: string, depth: int, maxDepth: int)
    ensures var w := WithInstance(updates, id);
            (w.Some? <==> Trim(id) != "" && FreeFor(updates, InstanceField(), Str(Trim(id)))) &&
            (w.Some? ==> InstanceOf(Obj(w.value)) == Trim(id))
    ensures var w := WithDepth(updates, depth);
            (w.Some? <==> depth >= 0 && FreeFor(updates, DepthField(), Num(depth))) &&
            (w.Some? ==> DepthOf(Obj(w.value)) == depth)
    ensures var w := WithMaxDepth(updates, maxDepth);
            (w.Some? <==> maxDepth > 0 && FreeFor(updates, MaxDepthField(), Num(maxDepth))) &&
            (w.Some? ==> MaxDepthOf(Obj(w.value)) == maxDepth)
    ensures Namespace() !in updates ==>
              InstanceOf(Obj(updates)) == "" && DepthOf(Obj(updates)) == 0 && MaxDepthOf(Obj(updates)) == 0
  {
    FieldsDiffer();
    TrimIsTrimmed(id);
    TrimIsTrimmed(Trim(id));
  }
}
