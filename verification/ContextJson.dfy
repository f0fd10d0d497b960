/** JSON values, their extension order, and deep accretion of one object into another. */
module ContextJson {

  /** A decoded JSON value; numbers that decode alike are one number. */
  datatype Json =
    | Null
    | Bool(b: bool)
    | Num(n: int)
    | Str(s: string)
    | Arr(items: seq<Json>)
    | Obj(fields: map<string, Json>)

  function RouteDepthPath(): string {
    "ductile.route_depth"
  }

  function JoinPath(prefix: string, key: string): string {
    if prefix == "" then key else prefix + "." + key
  }

  /** The one inherited path that updates may overwrite. */
  predicate Mutable(path: string) {
    path == RouteDepthPath()
  }

  datatype Merge = Merged(value: Json) | Conflict

  /** One key that occurs on both sides. */
  function AccreteValue(current: Json, update: Json, path: string): Merge
    decreases current, 1
  {
    if current == update then Merged(current)
    else if Mutable(path) then Merged(update)
    else if current.Obj? && update.Obj? then Accrete(current, update, path)
    else Conflict
  }

  /** Deep accretion: new keys are added, shared keys merged; a shared value that differs is a conflict. */
  function Accrete(dst: Json, updates: Json, prefix: string): Merge
    requires dst.Obj? && updates.Obj?
    decreases dst, 0
  {
    if forall k :: k in dst.fields && k in updates.fields ==>
                     AccreteValue(dst.fields[k], updates.fields[k], JoinPath(prefix, k)).Merged?
    then Merged(Obj(map k | k in dst.fields.Keys + updates.fields.Keys ::
           if k !in updates.fields then dst.fields[k]
           else if k !in dst.fields then updates.fields[k]
           else AccreteValue(dst.fields[k], updates.fields[k], JoinPath(prefix, k)).value))
    else Conflict
  }

  /** The destination after some of the update keys have been worked in. */
  ghost predicate Partial(dst: Json, updates: Json, prefix: string, left: set<string>, out: map<string, Json>)
    requires dst.Obj? && updates.Obj?
  {
    left <= updates.fields.Keys && out.Keys == dst.fields.Keys + (updates.fields.Keys - left) &&
    forall k :: k in out ==>
      if k in left || k !in updates.fields then out[k] == dst.fields[k]
      else if k !in dst.fields then out[k] == updates.fields[k]
      else AccreteValue(dst.fields[k], updates.fields[k], JoinPath(prefix, k)) == Merged(out[k])
  }

  lemma WorkIn(dst: Json, updates: Json, prefix: string, left: set<string>, out: map<string, Json>, key: string,
               v: Json)
    requires dst.Obj? && updates.Obj? && Partial(dst, updates, prefix, left, out) && key in left
    requires if key !in dst.fields then v == updates.fields[key]
             else AccreteValue(dst.fields[key], updates.fields[key], JoinPath(prefix, key)) == Merged(v)
    ensures Partial(dst, updates, prefix, left - {key}, out[key := v])
  {
    assert updates.fields.Keys - (left - {key}) == updates.fields.Keys - left + {key};
  }

  lemma AllWorkedIn(dst: Json, updates: Json, prefix: string, out: map<string, Json>)
    requires dst.Obj? && updates.Obj? && Partial(dst, updates, prefix, {}, out)
    ensures Accrete(dst, updates, prefix) == Merged(Obj(out))
  {
    forall k | k in dst.fields && k in updates.fields
      ensures AccreteValue(dst.fields[k], updates.fields[k], JoinPath(prefix, k)) == Merged(out[k])
    {
      assert k in out;
    }
    assert Accrete(dst, updates, prefix).Merged? && Accrete(dst, updates, prefix).value.fields == out;
  }

  /** deepAccreteRawMap: works through the updates in any order, writing into its copy of the
      destination and stopping at the first conflict. */
  method DeepAccrete(dst: Json, updates: Json, prefix: string) returns (result: Merge)
    requires dst.Obj? && updates.Obj?
    ensures result == Accrete(dst, updates, prefix)
    decreases dst
  {
    var out := dst.fields;
    var left := updates.fields.Keys;
    while left != {}
      invariant Partial(dst, updates, prefix, left, out)
      decreases |left|
    {
      var key :| key in left;
      var path, update, value := JoinPath(prefix, key), updates.fields[key], updates.fields[key];
      if key in out && out[key] != update && !Mutable(path) {
        var current := out[key];
        if !current.Obj? || !update.Obj? {
          return Conflict;
        }
        var inner := DeepAccrete(current, update, path);
        if inner.Conflict? {
          return Conflict;
        }
        value := inner.value;
      }
      WorkIn(dst, updates, prefix, left, out, key, value);
      out, left := out[key := value], left - {key};
    }
    AllWorkedIn(dst, updates, prefix, out);
    result := Merged(Obj(out));
  }

  // ---------------------------------------------------------------- the extension order

  /** b has everything a has: objects may gain keys at any depth, all other values stay. */
  ghost predicate Le(a: Json, b: Json)
    decreases a
  {
    a == b || (a.Obj? && b.Obj? && forall k :: k in a.fields ==> k in b.fields && Le(a.fields[k], b.fields[k]))
  }

  lemma {:induction false} LeTransitive(a: Json, b: Json, c: Json)
    requires Le(a, b) && Le(b, c)
    ensures Le(a, c)
    decreases a
  {
    if a != b && b != c {
      forall k | k in a.fields
        ensures k in c.fields && Le(a.fields[k], c.fields[k])
      {
        LeTransitive(a.fields[k], b.fields[k], c.fields[k]);
      }
    }
  }

  lemma {:induction false} LeAntisymmetric(a: Json, b: Json)
    requires Le(a, b) && Le(b, a)
    ensures a == b
    decreases a
  {
    if a != b {
      forall k | k in a.fields
        ensures k in b.fields && a.fields[k] == b.fields[k]
      {
        LeAntisymmetric(a.fields[k], b.fields[k]);
      }
    }
  }

  /** What the destination contributes: everything but a mutable path that the updates rewrite. */
  ghost function Inherited(dst: Json, updates: Json, prefix: string): Json
    requires dst.Obj? && updates.Obj?
    decreases dst
  {
    Obj(map k | k in dst.fields && !(k in updates.fields && Mutable(JoinPath(prefix, k))) ::
      if k in updates.fields && dst.fields[k].Obj? && updates.fields[k].Obj?
      then Inherited(dst.fields[k], updates.fields[k], JoinPath(prefix, k))
      else dst.fields[k])
  }

  lemma {:induction false} InheritedLe(dst: Json, updates: Json, prefix: string)
    requires dst.Obj? && updates.Obj?
    ensures Le(Inherited(dst, updates, prefix), dst)
    decreases dst
  {
    var part := Inherited(dst, updates, prefix);
    forall k | k in part.fields
      ensures Le(part.fields[k], dst.fields[k])
    {
      if k in updates.fields && dst.fields[k].Obj? && updates.fields[k].Obj? {
        InheritedLe(dst.fields[k], updates.fields[k], JoinPath(prefix, k));
      }
    }
  }

  ghost predicate Upper(dst: Json, updates: Json, prefix: string, c: Json)
    requires dst.Obj? && updates.Obj?
  {
    Le(Inherited(dst, updates, prefix), c) && Le(updates, c)
  }

  /** The result of a successful accretion extends both sides. */
  lemma {:induction false} AccreteIsUpper(dst: Json, updates: Json, prefix: string)
    requires dst.Obj? && updates.Obj? && Accrete(dst, updates, prefix).Merged?
    ensures Upper(dst, updates, prefix, Accrete(dst, updates, prefix).value)
    decreases dst
  {
    var r, part := Accrete(dst, updates, prefix).value, Inherited(dst, updates, prefix);
    forall k | k in updates.fields || k in part.fields
      ensures k in r.fields && (k in updates.fields ==> Le(updates.fields[k], r.fields[k]))
      ensures k in part.fields ==> Le(part.fields[k], r.fields[k])
    {
      if k in updates.fields && k in dst.fields {
        var current, update, path := dst.fields[k], updates.fields[k], JoinPath(prefix, k);
        if current.Obj? && update.Obj? {
          if current == update {
            InheritedLe(current, update, path);
          } else if !Mutable(path) {
            AccreteIsUpper(current, update, path);
          }
        }
      }
    }
  }

  /** Whenever both sides have a common extension, accretion succeeds, and with the least one. */
  lemma {:induction false} AccreteIsLeast(dst: Json, updates: Json, prefix: string, c: Json)
    requires dst.Obj? && updates.Obj? && Upper(dst, updates, prefix, c)
    ensures Accrete(dst, updates, prefix).Merged? && Le(Accrete(dst, updates, prefix).value, c)
    decreases dst
  {
    var part := Inherited(dst, updates, prefix);
    assert c.Obj?;
    forall k | k in dst.fields && k in updates.fields
      ensures var m := AccreteValue(dst.fields[k], updates.fields[k], JoinPath(prefix, k));
              m.Merged? && k in c.fields && Le(m.value, c.fields[k])
    {
      var current, update, path := dst.fields[k], updates.fields[k], JoinPath(prefix, k);
      assert Le(update, c.fields[k]);
      if !Mutable(path) {
        assert k in part.fields && Le(part.fields[k], c.fields[k]);
        if current.Obj? && update.Obj? {
          AccreteIsLeast(current, update, path, c.fields[k]);
        }
      }
    }
    var r := Accrete(dst, updates, prefix).value;
    forall k | k in r.fields
      ensures k in c.fields && Le(r.fields[k], c.fields[k])
    {
      assert k !in updates.fields ==> k in part.fields && part.fields[k] == dst.fields[k];
    }
  }

  /** Deep accretion succeeds exactly when the inherited part and the updates have a common extension. */
  lemma AccreteSucceedsIff(dst: Json, updates: Json, prefix: string)
    requires dst.Obj? && updates.Obj?
    ensures Accrete(dst, updates, prefix).Merged? <==> exists c :: Upper(dst, updates, prefix, c)
  {
    if Accrete(dst, updates, prefix).Merged? {
      AccreteIsUpper(dst, updates, prefix);
    }
    if c :| Upper(dst, updates, prefix, c) {
      AccreteIsLeast(dst, updates, prefix, c);
    }
  }

  // ---------------------------------------------------------------- updates commute

  /** The updates do not touch the mutable path. */
  ghost predicate Silent(updates: Json, prefix: string)
    decreases updates
  {
    updates.Obj? ==>
      forall k :: k in updates.fields ==>
                    !Mutable(JoinPath(prefix, k)) && Silent(updates.fields[k], JoinPath(prefix, k))
  }

  lemma {:induction false} SilentInheritsAll(dst: Json, updates: Json, prefix: string)
    requires dst.Obj? && updates.Obj? && Silent(updates, prefix)
    ensures Inherited(dst, updates, prefix) == dst
    decreases dst
  {
    forall k | k in dst.fields && k in updates.fields && dst.fields[k].Obj? && updates.fields[k].Obj?
      ensures Inherited(dst.fields[k], updates.fields[k], JoinPath(prefix, k)) == dst.fields[k]
    {
      SilentInheritsAll(dst.fields[k], updates.fields[k], JoinPath(prefix, k));
    }
    assert Inherited(dst, updates, prefix).fields == dst.fields;
  }

  function AccreteTwice(dst: Json, first: Json, second: Json, prefix: string): Merge
    requires dst.Obj? && first.Obj? && second.Obj?
  {
    var m := Accrete(dst, first, prefix);
    if m.Conflict? then Conflict else Accrete(m.value, second, prefix)
  }

  lemma TwiceIsLeast(dst: Json, first: Json, second: Json, prefix: string, c: Json)
    requires dst.Obj? && first.Obj? && second.Obj? && Silent(first, prefix) && Silent(second, prefix)
    requires Le(dst, c) && Le(first, c) && Le(second, c)
    ensures AccreteTwice(dst, first, second, prefix).Merged? && Le(AccreteTwice(dst, first, second, prefix).value, c)
  {
    SilentInheritsAll(dst, first, prefix);
    AccreteIsLeast(dst, first, prefix, c);
    var r := Accrete(dst, first, prefix).value;
    SilentInheritsAll(r, second, prefix);
    AccreteIsLeast(r, second, prefix, c);
  }

  lemma TwiceIsUpper(dst: Json, first: Json, second: Json, prefix: string)
    requires dst.Obj? && first.Obj? && second.Obj? && Silent(first, prefix) && Silent(second, prefix)
    requires AccreteTwice(dst, first, second, prefix).Merged?
    ensures var r := AccreteTwice(dst, first, second, prefix).value; Le(dst, r) && Le(first, r) && Le(second, r)
  {
    var r1, r := Accrete(dst, first, prefix).value, AccreteTwice(dst, first, second, prefix).value;
    SilentInheritsAll(dst, first, prefix);
    AccreteIsUpper(dst, first, prefix);
    SilentInheritsAll(r1, second, prefix);
    AccreteIsUpper(r1, second, prefix);
    LeTransitive(dst, r1, r);
    LeTransitive(first, r1, r);
  }

  /** Two update sets that leave the mutable path alone may come in either order: both orders fail,
      or both yield the same object. */
  lemma SilentUpdatesCommute(dst: Json, u: Json, v: Json, prefix: string)
    requires dst.Obj? && u.Obj? && v.Obj? && Silent(u, prefix) && Silent(v, prefix)
    ensures AccreteTwice(dst, u, v, prefix) == AccreteTwice(dst, v, u, prefix)
  {
    var uv, vu := AccreteTwice(dst, u, v, prefix), AccreteTwice(dst, v, u, prefix);
    if uv.Merged? {
      TwiceIsUpper(dst, u, v, prefix);
      TwiceIsLeast(dst, v, u, prefix, uv.value);
    }
    if vu.Merged? {
      TwiceIsUpper(dst, v, u, prefix);
      TwiceIsLeast(dst, u, v, prefix, vu.value);
    }
    if uv.Merged? && vu.Merged? {
      LeAntisymmetric(uv.value, vu.value);
    }
  }

  // ---------------------------------------------------------------- all updates, off the mutable path

  /** The value without what lies on the mutable path. */
  ghost function Strip(j: Json, prefix: string): Json
    decreases j
  {
    if !j.Obj? then j
    else Obj(map k | k in j.fields && !Mutable(JoinPath(prefix, k)) :: Strip(j.fields[k], JoinPath(prefix, k)))
  }

  ghost function StripMerge(m: Merge, prefix: string): Merge {
    if m.Conflict? then Conflict else Merged(Strip(m.value, prefix))
  }

  lemma {:induction false} StripIsSilent(j: Json, prefix: string)
    ensures Silent(Strip(j, prefix), prefix)
    decreases j
  {
    if j.Obj? {
      forall k | k in Strip(j, prefix).fields
        ensures Silent(Strip(j, prefix).fields[k], JoinPath(prefix, k))
      {
        StripIsSilent(j.fields[k], JoinPath(prefix, k));
      }
    }
  }

  /** Accreting an object into itself changes nothing. */
  lemma AccreteSelf(j: Json, prefix: string)
    requires j.Obj?
    ensures Accrete(j, j, prefix) == Merged(j)
  {
    assert Accrete(j, j, prefix).Merged? && Accrete(j, j, prefix).value.fields == j.fields;
  }

  lemma {:induction false} StripAccreteValue(current: Json, update: Json, path: string)
    requires !Mutable(path)
    ensures StripMerge(AccreteValue(current, update, path), path) ==
            AccreteValue(Strip(current, path), Strip(update, path), path)
    decreases current, 1
  {
    if current.Obj? && update.Obj? {
      AccreteSelf(Strip(current, path), path);
      if current != update {
        StripAccrete(current, update, path);
      }
    }
  }

  /** Accretion commutes with stripping. */
  lemma {:induction false} StripAccrete(dst: Json, updates: Json, prefix: string)
    requires dst.Obj? && updates.Obj?
    ensures StripMerge(Accrete(dst, updates, prefix), prefix) ==
            Accrete(Strip(dst, prefix), Strip(updates, prefix), prefix)
    decreases dst, 0
  {
    var d, u := Strip(dst, prefix), Strip(updates, prefix);
    forall k | k in dst.fields && k in updates.fields && !Mutable(JoinPath(prefix, k))
      ensures StripMerge(AccreteValue(dst.fields[k], updates.fields[k], JoinPath(prefix, k)), JoinPath(prefix, k)) ==
              AccreteValue(d.fields[k], u.fields[k], JoinPath(prefix, k))
    {
      StripAccreteValue(dst.fields[k], updates.fields[k], JoinPath(prefix, k));
    }
    StripKeys(dst, updates, prefix);
  }

  lemma StripKeys(dst: Json, updates: Json, prefix: string)
    requires dst.Obj? && updates.Obj?
    requires forall k :: k in dst.fields && k in updates.fields && !Mutable(JoinPath(prefix, k)) ==>
               StripMerge(AccreteValue(dst.fields[k], updates.fields[k], JoinPath(prefix, k)), JoinPath(prefix, k)) ==
               AccreteValue(Strip(dst, prefix).fields[k], Strip(updates, prefix).fields[k], JoinPath(prefix, k))
    ensures StripMerge(Accrete(dst, updates, prefix), prefix) ==
            Accrete(Strip(dst, prefix), Strip(updates, prefix), prefix)
  {
    var d, u := Strip(dst, prefix), Strip(updates, prefix);
    var m, n := Accrete(dst, updates, prefix), Accrete(d, u, prefix);
    if m.Merged? {
      assert n.Merged?;
      assert Strip(m.value, prefix).fields == n.value.fields;
    } else {
      var k :| k in dst.fields && k in updates.fields &&
               AccreteValue(dst.fields[k], updates.fields[k], JoinPath(prefix, k)).Conflict?;
      assert k in d.fields && k in u.fields && AccreteValue(d.fields[k], u.fields[k], JoinPath(prefix, k)).Conflict?;
    }
  }

  lemma StripTwice(dst: Json, first: Json, second: Json, prefix: string)
    requires dst.Obj? && first.Obj? && second.Obj?
    ensures StripMerge(AccreteTwice(dst, first, second, prefix), prefix) ==
            AccreteTwice(Strip(dst, prefix), Strip(first, prefix), Strip(second, prefix), prefix)
  {
    StripAccrete(dst, first, prefix);
    var m := Accrete(dst, first, prefix);
    if m.Merged? {
      StripAccrete(m.value, second, prefix);
    }
  }

  /** Any two update sets may come in either order: both orders fail or both succeed, and then the
      results are the same off the mutable path. */
  lemma UpdatesCommute(dst: Json, u: Json, v: Json, prefix: string)
    requires dst.Obj? && u.Obj? && v.Obj?
    ensures StripMerge(AccreteTwice(dst, u, v, prefix), prefix) == StripMerge(AccreteTwice(dst, v, u, prefix), prefix)
    ensures AccreteTwice(dst, u, v, prefix).Merged? <==> AccreteTwice(dst, v, u, prefix).Merged?
  {
    StripTwice(dst, u, v, prefix);
    StripTwice(dst, v, u, prefix);
    StripIsSilent(u, prefix);
    StripIsSilent(v, prefix);
    SilentUpdatesCommute(Strip(dst, prefix), Strip(u, prefix), Strip(v, prefix), prefix);
  }

  // ---------------------------------------------------------------- when the mutable path agrees as well

  /** Both write the same value wherever both write on the mutable path. */
  ghost predicate AgreeOnMutable(u: Json, v: Json, prefix: string)
    decreases u
  {
    u.Obj? && v.Obj? ==>
      forall k :: k in u.fields && k in v.fields ==>
                    if Mutable(JoinPath(prefix, k)) then u.fields[k] == v.fields[k]
                    else AgreeOnMutable(u.fields[k], v.fields[k], JoinPath(prefix, k))
  }

  /** What the destination has under a key; nothing counts as an empty object. */
  function Under(dst: Json, k: string): Json
    requires dst.Obj?
  {
    if k in dst.fields then dst.fields[k] else Obj(map[])
  }

  lemma AccreteEmpty(u: Json, prefix: string)
    requires u.Obj?
    ensures Accrete(Obj(map[]), u, prefix) == Merged(u)
  {
    assert Accrete(Obj(map[]), u, prefix).value.fields == u.fields;
  }

  /** What an accretion leaves under a key that the updates write. */
  lemma AccreteKey(dst: Json, u: Json, prefix: string, k: string)
    requires dst.Obj? && u.Obj? && Accrete(dst, u, prefix).Merged? && k in u.fields
    ensures var m := Accrete(dst, u, prefix).value;
            m.Obj? && k in m.fields &&
            if k in dst.fields then AccreteValue(dst.fields[k], u.fields[k], JoinPath(prefix, k)) == Merged(m.fields[k])
            else m.fields[k] == u.fields[k]
  {
  }

  lemma ObjectKey(current: Json, update: Json, path: string)
    requires current.Obj? && update.Obj? && !Mutable(path)
    ensures AccreteValue(current, update, path) == Accrete(current, update, path)
  {
    AccreteSelf(current, path);
  }

  /** Under a key that both sets fill with objects, the accretions are those of the objects. */
  lemma TwiceUnder(dst: Json, u: Json, v: Json, prefix: string, k: string)
    requires dst.Obj? && u.Obj? && v.Obj? && AccreteTwice(dst, u, v, prefix).Merged?
    requires k in u.fields && k in v.fields && !Mutable(JoinPath(prefix, k)) && u.fields[k].Obj? && v.fields[k].Obj?
    ensures Under(dst, k).Obj? && k in AccreteTwice(dst, u, v, prefix).value.fields
    ensures AccreteTwice(Under(dst, k), u.fields[k], v.fields[k], JoinPath(prefix, k)) ==
            Merged(AccreteTwice(dst, u, v, prefix).value.fields[k])
  {
    var path, m := JoinPath(prefix, k), Accrete(dst, u, prefix).value;
    AccreteKey(dst, u, prefix, k);
    AccreteKey(m, v, prefix, k);
    AccreteEmpty(u.fields[k], path);
    if k in dst.fields {
      assert dst.fields[k].Obj?;
      ObjectKey(dst.fields[k], u.fields[k], path);
    }
    ObjectKey(m.fields[k], v.fields[k], path);
  }

  /** The last writer of a key on the mutable path wins. */
  lemma TwiceMutable(dst: Json, u: Json, v: Json, prefix: string, k: string)
    requires dst.Obj? && u.Obj? && v.Obj? && AccreteTwice(dst, u, v, prefix).Merged?
    requires k in u.fields && k in v.fields && Mutable(JoinPath(prefix, k))
    ensures k in AccreteTwice(dst, u, v, prefix).value.fields
    ensures AccreteTwice(dst, u, v, prefix).value.fields[k] == v.fields[k]
  {
    AccreteKey(dst, u, prefix, k);
    AccreteKey(Accrete(dst, u, prefix).value, v, prefix, k);
  }

  /** A key that one of the sets leaves alone ends the same in both orders. */
  lemma TwiceAlone(dst: Json, u: Json, v: Json, prefix: string, k: string)
    requires dst.Obj? && u.Obj? && v.Obj? && !(k in u.fields && k in v.fields)
    requires AccreteTwice(dst, u, v, prefix).Merged? && AccreteTwice(dst, v, u, prefix).Merged?
    ensures var uv, vu := AccreteTwice(dst, u, v, prefix).value.fields, AccreteTwice(dst, v, u, prefix).value.fields;
            (k in uv <==> k in vu) && (k in uv ==> uv[k] == vu[k])
  {
  }

  lemma TwicePlain(dst: Json, u: Json, v: Json, prefix: string, k: string)
    requires dst.Obj? && u.Obj? && v.Obj? && AccreteTwice(dst, u, v, prefix).Merged?
    requires k in u.fields && k in v.fields && !Mutable(JoinPath(prefix, k))
    requires !u.fields[k].Obj? || !v.fields[k].Obj?
    ensures u.fields[k] == v.fields[k]
    ensures k in AccreteTwice(dst, u, v, prefix).value.fields
    ensures AccreteTwice(dst, u, v, prefix).value.fields[k] == u.fields[k]
  {
    var path, m := JoinPath(prefix, k), Accrete(dst, u, prefix).value;
    AccreteKey(dst, u, prefix, k);
    AccreteKey(m, v, prefix, k);
    if k in dst.fields && dst.fields[k].Obj? && u.fields[k].Obj? {
      ObjectKey(dst.fields[k], u.fields[k], path);
    }
  }

  ghost predicate SameUnder(dst: Json, u: Json, v: Json, prefix: string, k: string)
    requires dst.Obj? && u.Obj? && v.Obj?
    requires AccreteTwice(dst, u, v, prefix).Merged? && AccreteTwice(dst, v, u, prefix).Merged?
  {
    var uv, vu := AccreteTwice(dst, u, v, prefix).value.fields, AccreteTwice(dst, v, u, prefix).value.fields;
    (k in uv <==> k in vu) && (k in uv ==> uv[k] == vu[k])
  }

  lemma {:induction false} SameUnderIff(dst: Json, u: Json, v: Json, prefix: string, k: string)
    requires dst.Obj? && u.Obj? && v.Obj?
    requires AccreteTwice(dst, u, v, prefix).Merged? && AccreteTwice(dst, v, u, prefix).Merged?
    ensures SameUnder(dst, u, v, prefix, k) <==>
            (k in u.fields && k in v.fields ==>
               if Mutable(JoinPath(prefix, k)) then u.fields[k] == v.fields[k]
               else AgreeOnMutable(u.fields[k], v.fields[k], JoinPath(prefix, k)))
    decreases u, 0
  {
    if !(k in u.fields && k in v.fields) {
      TwiceAlone(dst, u, v, prefix, k);
    } else if Mutable(JoinPath(prefix, k)) {
      TwiceMutable(dst, u, v, prefix, k);
      TwiceMutable(dst, v, u, prefix, k);
    } else if u.fields[k].Obj? && v.fields[k].Obj? {
      TwiceUnder(dst, u, v, prefix, k);
      TwiceUnder(dst, v, u, prefix, k);
      SameResultIff(Under(dst, k), u.fields[k], v.fields[k], JoinPath(prefix, k));
    } else {
      TwicePlain(dst, u, v, prefix, k);
      TwicePlain(dst, v, u, prefix, k);
    }
  }

  /** Two orders that succeed yield the same object exactly when the sets agree on every mutable path
      that both write. */
  lemma {:induction false} SameResultIff(dst: Json, u: Json, v: Json, prefix: string)
    requires dst.Obj? && u.Obj? && v.Obj?
    requires AccreteTwice(dst, u, v, prefix).Merged? && AccreteTwice(dst, v, u, prefix).Merged?
    ensures AccreteTwice(dst, u, v, prefix) == AccreteTwice(dst, v, u, prefix) <==> AgreeOnMutable(u, v, prefix)
    decreases u, 1
  {
    var uv, vu := AccreteTwice(dst, u, v, prefix).value, AccreteTwice(dst, v, u, prefix).value;
    forall k
      ensures SameUnder(dst, u, v, prefix, k) <==>
              (k in u.fields && k in v.fields ==>
                 if Mutable(JoinPath(prefix, k)) then u.fields[k] == v.fields[k]
                 else AgreeOnMutable(u.fields[k], v.fields[k], JoinPath(prefix, k)))
    {
      SameUnderIff(dst, u, v, prefix, k);
    }
    SameFields(dst, u, v, prefix);
  }

  lemma SameFields(dst: Json, u: Json, v: Json, prefix: string)
    requires dst.Obj? && u.Obj? && v.Obj?
    requires AccreteTwice(dst, u, v, prefix).Merged? && AccreteTwice(dst, v, u, prefix).Merged?
    ensures AccreteTwice(dst, u, v, prefix) == AccreteTwice(dst, v, u, prefix) <==>
            forall k :: SameUnder(dst, u, v, prefix, k)
  {
    var uv, vu := AccreteTwice(dst, u, v, prefix).value, AccreteTwice(dst, v, u, prefix).value;
    if forall k :: SameUnder(dst, u, v, prefix, k) {
      forall k
        ensures (k in uv.fields <==> k in vu.fields) && (k in uv.fields ==> uv.fields[k] == vu.fields[k])
      {
        assert SameUnder(dst, u, v, prefix, k);
      }
      assert uv.fields == vu.fields;
    }
  }

  lemma DottedFits(dst: Json, a: Json)
    requires dst.Obj?
    ensures Accrete(dst, Obj(map[RouteDepthPath() := a]), "").Merged?
    ensures Accrete(dst, Obj(map[RouteDepthPath() := a]), "").value.Obj?
  {
    assert JoinPath("", RouteDepthPath()) == RouteDepthPath();
  }

  /** The exception is about the joined path: a top-level key spelled with the dot is mutable as
      well, and two sets that differ there end differently on every destination they fit. */
  lemma MutableUpdatesDoNotCommute(dst: Json, a: Json, b: Json)
    requires dst.Obj? && a != b
    ensures var u, v := Obj(map[RouteDepthPath() := a]), Obj(map[RouteDepthPath() := b]);
            AccreteTwice(dst, u, v, "").Merged? && AccreteTwice(dst, u, v, "") != AccreteTwice(dst, v, u, "")
  {
    var key := RouteDepthPath();
    var u, v := Obj(map[key := a]), Obj(map[key := b]);
    assert JoinPath("", key) == key && Mutable(key) && u.fields[key] != v.fields[key];
    DottedFits(dst, a);
    DottedFits(Accrete(dst, u, "").value, b);
    UpdatesCommute(dst, u, v, "");
    SameResultIff(dst, u, v, "");
  }
}
