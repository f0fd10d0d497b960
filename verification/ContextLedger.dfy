/** The append-only ledger of event contexts. */
module ContextLedger {
  import opened Base
  import opened ContextJson

  type ContextId = nat

  /** One immutable ledger row; accumulated is always an object. */
  datatype Context = Context(parent: Option<ContextId>, pipeline: string, step: string, accumulated: Json)

  /** Rows in order of creation; the position of a row stands for its generated id. */
  type Ledger = seq<Context>

  datatype CreateResult = Created(id: ContextId) | BadUpdates | ParentNotFound | Immutable | TooLarge

  /** decodeObjectOrEmpty: no bytes and null mean no updates; anything but an object is refused. */
  function DecodeUpdates(updates: Option<Json>): Option<Json> {
    match updates
    case None => Some(Obj(map[]))
    case Some(Null) => Some(Obj(map[]))
    case Some(Obj(_)) => updates
    case Some(_) => None
  }

  /** The accumulated value of a new context, before the size check. */
  function Accumulate(ledger: Ledger, parent: Option<ContextId>, updates: Json): Merge
    requires updates.Obj? && (parent.Some? ==> parent.value < |ledger|)
  {
    if parent.None? then Merged(updates)
    else if ledger[parent.value].accumulated.Obj? then Accrete(ledger[parent.value].accumulated, updates, "")
    else Conflict
  }

  /** Create; `fits` stands for the limit on the encoded size. */
  function Create(ledger: Ledger, parent: Option<ContextId>, pipeline: string, step: string, updates: Option<Json>,
                  fits: Json -> bool): (Ledger, CreateResult) {
    var decoded := DecodeUpdates(updates);
    if decoded.None? then (ledger, BadUpdates)
    else if parent.Some? && parent.value >= |ledger| then (ledger, ParentNotFound)
    else
      var merged := Accumulate(ledger, parent, decoded.value);
      if merged.Conflict? then (ledger, Immutable)
      else if !fits(merged.value) then (ledger, TooLarge)
      else (ledger + [Context(parent, pipeline, step, merged.value)], Created(|ledger|))
  }

  class ContextStore {
    var contexts: Ledger
    const fits: Json -> bool

    constructor (fits: Json -> bool)
      ensures contexts == [] && this.fits == fits
    {
      this.contexts, this.fits := [], fits;
    }

    method CreateContext(parent: Option<ContextId>, pipeline: string, step: string, updates: Option<Json>)
      returns (result: CreateResult)
      requires LedgerOk(contexts)
      modifies this
      ensures LedgerOk(contexts)
      ensures (contexts, result) == Create(old(contexts), parent, pipeline, step, updates, fits)
    {
      CreateKeeps(contexts, parent, pipeline, step, updates, fits);
      var decoded := DecodeUpdates(updates);
      if decoded.None? {
        return BadUpdates;
      }
      var accumulated := Merged(decoded.value);
      if parent.Some? {
        if parent.value >= |contexts| {
          return ParentNotFound;
        }
        assert ContextOk(contexts, parent.value);
        accumulated := DeepAccrete(contexts[parent.value].accumulated, decoded.value, "");
      }
      if accumulated.Conflict? {
        return Immutable;
      }
      if !fits(accumulated.value) {
        return TooLarge;
      }
      result := Created(|contexts|);
      contexts := contexts + [Context(parent, pipeline, step, accumulated.value)];
    }
  }

  // ---------------------------------------------------------------- inherited values

  /** b inherits a at this path: every value of a is still there, unless its path is mutable. */
  ghost predicate Keeps(a: Json, b: Json, path: string)
    decreases a
  {
    Mutable(path) || a == b ||
    (a.Obj? && b.Obj? &&
     forall k :: k in a.fields ==> k in b.fields && Keeps(a.fields[k], b.fields[k], JoinPath(path, k)))
  }

  lemma {:induction false} KeepsTransitive(a: Json, b: Json, c: Json, path: string)
    requires Keeps(a, b, path) && Keeps(b, c, path)
    ensures Keeps(a, c, path)
    decreases a
  {
    if !Mutable(path) && a != b && b != c {
      forall k | k in a.fields
        ensures k in c.fields && Keeps(a.fields[k], c.fields[k], JoinPath(path, k))
      {
        KeepsTransitive(a.fields[k], b.fields[k], c.fields[k], JoinPath(path, k));
      }
    }
  }

  lemma {:induction false} AccreteKeeps(dst: Json, updates: Json, prefix: string)
    requires dst.Obj? && updates.Obj? && Accrete(dst, updates, prefix).Merged?
    ensures Keeps(dst, Accrete(dst, updates, prefix).value, prefix)
    decreases dst
  {
    var r := Accrete(dst, updates, prefix).value;
    forall k | k in dst.fields
      ensures k in r.fields && Keeps(dst.fields[k], r.fields[k], JoinPath(prefix, k))
    {
      if k in updates.fields && dst.fields[k] != updates.fields[k] && !Mutable(JoinPath(prefix, k)) {
        AccreteKeeps(dst.fields[k], updates.fields[k], JoinPath(prefix, k));
      }
    }
  }

  /** The value found by following keys through nested objects. */
  function Lookup(j: Json, keys: seq<string>): Option<Json> {
    if keys == [] then Some(j)
    else if j.Obj? && keys[0] in j.fields then Lookup(j.fields[keys[0]], keys[1..])
    else None
  }

  /** The joined path after following the keys. */
  function PathOf(prefix: string, keys: seq<string>): string
    decreases keys
  {
    if keys == [] then prefix else PathOf(JoinPath(prefix, keys[0]), keys[1..])
  }

  /** No path on the way is mutable. */
  predicate Fixed(prefix: string, keys: seq<string>)
    decreases keys
  {
    !Mutable(prefix) && (keys != [] ==> Fixed(JoinPath(prefix, keys[0]), keys[1..]))
  }

  lemma {:induction false} KeptValue(a: Json, b: Json, prefix: string, keys: seq<string>)
    requires Keeps(a, b, prefix) && Fixed(prefix, keys) && Lookup(a, keys).Some?
    ensures Lookup(b, keys).Some? && Keeps(Lookup(a, keys).value, Lookup(b, keys).value, PathOf(prefix, keys))
    ensures !Lookup(a, keys).value.Obj? ==> Lookup(b, keys) == Lookup(a, keys)
    decreases keys
  {
    if keys != [] {
      KeptValue(a.fields[keys[0]], b.fields[keys[0]], JoinPath(prefix, keys[0]), keys[1..]);
    }
  }

  // ---------------------------------------------------------------- the ledger

  ghost predicate ContextOk(ledger: Ledger, id: ContextId)
    requires id < |ledger|
  {
    var c := ledger[id];
    c.accumulated.Obj? &&
    (c.parent.Some? ==> c.parent.value < id && Keeps(ledger[c.parent.value].accumulated, c.accumulated, ""))
  }

  ghost predicate LedgerOk(ledger: Ledger) {
    forall id: ContextId :: id < |ledger| ==> ContextOk(ledger, id)
  }

  /** Create only ever appends, and what it appends inherits its parent's values. */
  lemma CreateKeeps(ledger: Ledger, parent: Option<ContextId>, pipeline: string, step: string, updates: Option<Json>,
                    fits: Json -> bool)
    requires LedgerOk(ledger)
    ensures ledger <= Create(ledger, parent, pipeline, step, updates, fits).0
    ensures LedgerOk(Create(ledger, parent, pipeline, step, updates, fits).0)
  {
    var (ledger', result) := Create(ledger, parent, pipeline, step, updates, fits);
    if parent.Some? && parent.value < |ledger| {
      assert ContextOk(ledger, parent.value);
      if result.Created? {
        AccreteKeeps(ledger[parent.value].accumulated, DecodeUpdates(updates).value, "");
      }
    }
    forall id: ContextId | id < |ledger'|
      ensures ContextOk(ledger', id)
    {
      if id < |ledger| {
        assert ContextOk(ledger, id);
      }
    }
  }

  datatype CreateCall = CreateCall(parent: Option<ContextId>, pipeline: string, step: string, updates: Option<Json>)

  function CreateAll(ledger: Ledger, calls: seq<CreateCall>, fits: Json -> bool): Ledger
    decreases calls
  {
    if calls == [] then ledger
    else
      var c := calls[0];
      CreateAll(Create(ledger, c.parent, c.pipeline, c.step, c.updates, fits).0, calls[1..], fits)
  }

  /** Any sequence of Create calls, failing or not, keeps the ledger and only appends to it. */
  lemma {:induction false} CreateAllKeeps(ledger: Ledger, calls: seq<CreateCall>, fits: Json -> bool)
    requires LedgerOk(ledger)
    ensures LedgerOk(CreateAll(ledger, calls, fits)) && ledger <= CreateAll(ledger, calls, fits)
    decreases calls
  {
    if calls != [] {
      var c := calls[0];
      CreateKeeps(ledger, c.parent, c.pipeline, c.step, c.updates, fits);
      CreateAllKeeps(Create(ledger, c.parent, c.pipeline, c.step, c.updates, fits).0, calls[1..], fits);
    }
  }

  /** The chain of contexts from the root to this one. */
  ghost function Lineage(ledger: Ledger, id: ContextId): (chain: seq<ContextId>)
    requires LedgerOk(ledger) && id < |ledger|
    ensures chain != [] && chain[|chain| - 1] == id && forall i :: 0 <= i < |chain| ==> chain[i] < |ledger|
    decreases id
  {
    assert ContextOk(ledger, id);
    if ledger[id].parent.None? then [id] else Lineage(ledger, ledger[id].parent.value) + [id]
  }

  lemma {:induction false} LineageKeeps(ledger: Ledger, id: ContextId, i: nat)
    requires LedgerOk(ledger) && id < |ledger| && i < |Lineage(ledger, id)|
    ensures Keeps(ledger[Lineage(ledger, id)[i]].accumulated, ledger[id].accumulated, "")
    decreases id
  {
    assert ContextOk(ledger, id);
    if i < |Lineage(ledger, id)| - 1 {
      var parent := ledger[id].parent.value;
      LineageKeeps(ledger, parent, i);
      var ancestor := ledger[Lineage(ledger, id)[i]].accumulated;
      KeepsTransitive(ancestor, ledger[parent].accumulated, ledger[id].accumulated, "");
    }
  }

  /** In a ledger built by any sequence of Create calls, a value stored by an ancestor is found
      unchanged in every descendant, unless the path runs through route_depth. Objects may only
      have gained keys. */
  lemma ValuesAreInherited(calls: seq<CreateCall>, fits: Json -> bool, id: ContextId, i: nat, keys: seq<string>)
    requires id < |CreateAll([], calls, fits)|
    requires LedgerOk(CreateAll([], calls, fits)) ==> i < |Lineage(CreateAll([], calls, fits), id)|
    requires Fixed("", keys)
    ensures LedgerOk(CreateAll([], calls, fits))
    ensures var ledger := CreateAll([], calls, fits);
            var before := Lookup(ledger[Lineage(ledger, id)[i]].accumulated, keys);
            var after := Lookup(ledger[id].accumulated, keys);
            before.Some? ==>
              after.Some? &&
              if before.value.Obj? then Keeps(before.value, after.value, PathOf("", keys)) else after == before
  {
    CreateAllKeeps([], calls, fits);
    var ledger := CreateAll([], calls, fits);
    LineageKeeps(ledger, id, i);
    var ancestor := ledger[Lineage(ledger, id)[i]].accumulated;
    if Lookup(ancestor, keys).Some? {
      KeptValue(ancestor, ledger[id].accumulated, "", keys);
    }
  }

  /** What a new context inherits from: the values of its parent, or nothing. */
  function ParentValue(ledger: Ledger, parent: Option<ContextId>): (j: Json)
    ensures j.Obj?
  {
    if parent.Some? && parent.value < |ledger| && ledger[parent.value].accumulated.Obj?
    then ledger[parent.value].accumulated else Obj(map[])
  }

  /** A context is created exactly if the updates are an object, null or missing, the parent is there,
      the parent's values and the updates have a common extension, and the least one fits. That one is
      appended, with the given place in the lineage; otherwise nothing changes. */
  lemma CreatedIff(ledger: Ledger, parent: Option<ContextId>, pipeline: string, step: string, updates: Option<Json>,
                   fits: Json -> bool)
    requires LedgerOk(ledger)
    ensures var (ledger', r) := Create(ledger, parent, pipeline, step, updates, fits);
            var dst, u := ParentValue(ledger, parent),
                          if updates.Some? && updates.value.Obj? then updates.value else Obj(map[]);
            if updates.Some? && !updates.value.Obj? && updates.value != Null then ledger' == ledger && r == BadUpdates
            else if parent.Some? && parent.value >= |ledger| then ledger' == ledger && r == ParentNotFound
            else if !exists c :: Upper(dst, u, "", c) then ledger' == ledger && r == Immutable
            else
              Accrete(dst, u, "").Merged? && var value := Accrete(dst, u, "").value;
              if !fits(value) then ledger' == ledger && r == TooLarge
              else ledger' == ledger + [Context(parent, pipeline, step, value)] && r == Created(|ledger|)
  {
    var u := if updates.Some? && updates.value.Obj? then updates.value else Obj(map[]);
    if parent.Some? && parent.value < |ledger| {
      assert ContextOk(ledger, parent.value);
    }
    AccreteSucceedsIff(ParentValue(ledger, parent), u, "");
    AccreteEmpty(u, "");
  }
}
