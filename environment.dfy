/**
 * Variable environments: a store of bindings and an optional enclosing
 * environment (ts/src/object/enviroment.ts, go/object/environment.go).
 *
 * `Environment` is the object both versions define; a name is looked up in
 * the innermost store first and then outwards.  The evaluator keeps its
 * environments in an arena of `Frame`s instead, so that evaluation can be a
 * function; both are tied to the same reference lookup, `Lookup`, over the
 * chain of stores.
 */
module Environments {
  import opened Wrappers

  /** The binding of `name` in the first store of the chain that has one. */
  function Lookup<V>(stores: seq<map<string, V>>, name: string): (r: Option<V>)
    ensures r.Some? <==> exists i :: 0 <= i < |stores| && name in stores[i]
    ensures r.Some? ==> exists i :: (0 <= i < |stores| && name in stores[i] && stores[i][name] == r.value
      && forall j :: 0 <= j < i ==> name !in stores[j])
  {
    if |stores| == 0 then None
    else if name in stores[0] then Some(stores[0][name])
    else
      var r := Lookup(stores[1..], name);
      assert forall i :: 1 <= i < |stores| ==> stores[i] == stores[1..][i - 1];
      r
  }

  /** Looking up along two chains one after the other: the first one wins. */
  lemma {:induction false} LookupAppend<V>(a: seq<map<string, V>>, b: seq<map<string, V>>, name: string)
    ensures Lookup(a + b, name) == if Lookup(a, name).Some? then Lookup(a, name) else Lookup(b, name)
    decreases |a|
  {
    if |a| > 0 {
      assert (a + b)[0] == a[0];
      assert (a + b)[1..] == a[1..] + b;
      LookupAppend(a[1..], b, name);
    } else {
      assert a + b == b;
    }
  }

  /** Binding a name in the innermost store makes it visible and leaves every other name alone. */
  lemma LookupAfterSet<V>(s: map<string, V>, rest: seq<map<string, V>>, name: string, v: V, other: string)
    requires other != name
    ensures Lookup([s[name := v]] + rest, name) == Some(v)
    ensures Lookup([s[name := v]] + rest, other) == Lookup([s] + rest, other)
  {
    assert ([s[name := v]] + rest)[1..] == rest;
    assert ([s] + rest)[1..] == rest;
  }

  class Environment<V> {
    var store: map<string, V>
    const outer: Environment?<V>
    /** The environments of the chain that starts here. */
    ghost const Repr: set<object>

    ghost predicate Valid()
      decreases Repr
    {
      this in Repr &&
      (outer != null ==> outer in Repr && outer.Repr < Repr && this !in outer.Repr && outer.Valid())
    }

    /** The stores of the chain, innermost first. */
    ghost function Stores(): (s: seq<map<string, V>>)
      requires Valid()
      reads Repr
      ensures |s| > 0 && s[0] == store
      decreases Repr
    {
      [store] + if outer == null then [] else outer.Stores()
    }

    /** `Environment.new()` / `NewEnvironment()`. */
    constructor New()
      ensures Valid() && fresh(Repr)
      ensures store == map[] && outer == null && Stores() == [map[]]
    {
      store := map[];
      outer := null;
      Repr := {this};
    }

    /** `newEnclosedEnvironment(outer)` / `NewEnclosedEnvironment(outer)`. */
    constructor Enclosed(outerEnv: Environment<V>)
      requires outerEnv.Valid()
      ensures Valid() && fresh(Repr - outerEnv.Repr)
      ensures store == map[] && outer == outerEnv && Repr == {this} + outerEnv.Repr
      ensures Stores() == [map[]] + outerEnv.Stores()
    {
      store := map[];
      outer := outerEnv;
      Repr := {this} + outerEnv.Repr;
    }

    /** `get(name)` / `Get(name)`: the innermost binding of `name`, if any. */
    function Get(name: string): (r: Option<V>)
      requires Valid()
      reads Repr
      ensures r == Lookup(Stores(), name)
      decreases Repr
    {
      if name in store then Some(store[name])
      else if outer == null then None
      else
        var r := outer.Get(name);
        assert Stores()[1..] == outer.Stores();
        r
    }

    /** `getCurrScope(name)` / `GetCurrScope(name)`: the binding in this store only. */
    function GetCurrScope(name: string): (r: Option<V>)
      reads this
      ensures r.Some? <==> name in store
      ensures r.Some? ==> r.value == store[name]
      ensures r == Lookup([store], name)
    {
      if name in store then Some(store[name]) else None
    }

    /**
     * `getEnv(name)` / `GetEnv(name)`: this environment when the name is bound
     * here, otherwise the enclosing one when the name is bound anywhere
     * along its chain.  Go's `ok` result is `r != null`.
     */
    function GetEnv(name: string): (r: Environment?<V>)
      requires Valid()
      reads Repr
    {
      if name in store then this
      else if outer != null && outer.Get(name).Some? then outer
      else null
    }

    /** `set(name, val)` / `Set(name, val)`: binds in this store and returns the value. */
    method Set(name: string, v: V) returns (r: V)
      modifies this
      ensures store == old(store)[name := v] && r == v
    {
      store := store[name := v];
      r := v;
    }

    /** `set(name, undefined)`: a binding to `undefined` reads as no binding at all. */
    method Unset(name: string)
      modifies this
      ensures store == old(store) - {name}
    {
      store := store - {name};
    }
  }

  /**
   * `getEnv` finds an environment exactly when `get` finds a value; it is
   * this one exactly when the name is bound here, and otherwise the
   * immediately enclosing one.
   */
  lemma GetEnvAgreesWithGet<V>(e: Environment<V>, name: string)
    requires e.Valid()
    ensures e.GetEnv(name) != null <==> e.Get(name).Some?
    ensures e.GetEnv(name) == e <==> name in e.store
    ensures e.GetEnv(name) != null && e.GetEnv(name) != e ==> e.GetEnv(name) == e.outer
  {
  }

  /**
   * `get` is `getCurrScope` first and then `get` on the enclosing
   * environment: the two agree on names bound here, and differ exactly where
   * only an enclosing store binds the name.
   */
  lemma CurrScopeThenOuter<V>(e: Environment<V>, name: string)
    requires e.Valid()
    ensures e.GetCurrScope(name).Some? ==> e.Get(name) == e.GetCurrScope(name)
    ensures e.GetCurrScope(name).None? ==> e.Get(name) == (if e.outer == null then None else e.outer.Get(name))
    ensures e.Get(name) != e.GetCurrScope(name) <==> name !in e.store && e.outer != null && e.outer.Get(name).Some?
  {
    var stores := e.Stores();
    LookupAppend([e.store], stores[1..], name);
    assert stores == [e.store] + stores[1..];
  }

  /**
   * When the name is bound two levels out, `getEnv` returns the enclosing
   * environment, whose own store does not hold it, not the one that binds it.
   */
  lemma GetEnvStopsOneLevelOut<V>(e: Environment<V>, name: string)
    requires e.Valid() && e.outer != null && e.outer.outer != null
    requires name !in e.store && name !in e.outer.store && name in e.outer.outer.store
    ensures e.GetEnv(name) == e.outer
    ensures e.GetEnv(name).GetCurrScope(name).None?
  {
  }

  /** An environment of the evaluator's arena: a store and the index of the enclosing frame. */
  datatype Frame<V> = Frame(store: map<string, V>, outer: Option<nat>)

  /** Every frame encloses only frames created before it. */
  ghost predicate WellFormed<V>(frames: seq<Frame<V>>)
  {
    forall i :: 0 <= i < |frames| && frames[i].outer.Some? ==> frames[i].outer.value < i
  }

  /** The stores of the chain that starts at frame `i`, innermost first. */
  function ChainStores<V>(frames: seq<Frame<V>>, i: nat): seq<map<string, V>>
    decreases i
  {
    if i >= |frames| then []
    else
      [frames[i].store] +
      match frames[i].outer
      case Some(o) => if o < i then ChainStores(frames, o) else []
      case None => []
  }

  /** `get` on frame `i` of the arena. */
  function ArenaGet<V>(frames: seq<Frame<V>>, i: nat, name: string): (r: Option<V>)
    decreases i
  {
    if i >= |frames| then None
    else if name in frames[i].store then Some(frames[i].store[name])
    else
      match frames[i].outer
      case Some(o) => if o < i then ArenaGet(frames, o, name) else None
      case None => None
  }

  /** Looking up in the arena is looking up along the chain of stores. */
  lemma {:induction false} ArenaGetIsLookup<V>(frames: seq<Frame<V>>, i: nat, name: string)
    ensures ArenaGet(frames, i, name) == Lookup(ChainStores(frames, i), name)
    decreases i
  {
    if i < |frames| {
      var cs := ChainStores(frames, i);
      assert cs[0] == frames[i].store;
      match frames[i].outer
      case Some(o) =>
        if o < i {
          ArenaGetIsLookup(frames, o, name);
          assert cs[1..] == ChainStores(frames, o);
        } else {
          assert cs[1..] == [];
        }
      case None =>
        assert cs[1..] == [];
    }
  }

  /** `set` on frame `i`. */
  function ArenaSet<V>(frames: seq<Frame<V>>, i: nat, name: string, v: V): (r: seq<Frame<V>>)
    requires i < |frames|
    ensures |r| == |frames| && r[i].store == frames[i].store[name := v]
    ensures forall j :: 0 <= j < |r| ==> r[j].outer == frames[j].outer
    ensures forall j :: 0 <= j < |r| && j != i ==> r[j] == frames[j]
  {
    frames[i := Frame(frames[i].store[name := v], frames[i].outer)]
  }

  /** `set` on frame `i` of a value that is `undefined`. */
  function ArenaUnset<V>(frames: seq<Frame<V>>, i: nat, name: string): (r: seq<Frame<V>>)
    requires i < |frames|
    ensures |r| == |frames| && r[i].store == frames[i].store - {name}
    ensures forall j :: 0 <= j < |r| ==> r[j].outer == frames[j].outer
    ensures forall j :: 0 <= j < |r| && j != i ==> r[j] == frames[j]
  {
    frames[i := Frame(frames[i].store - {name}, frames[i].outer)]
  }

  /** After a `set` on frame `i`, looking the name up from frame `i` finds the new value. */
  lemma ArenaGetAfterSet<V>(frames: seq<Frame<V>>, i: nat, name: string, v: V)
    requires i < |frames|
    ensures ArenaGet(ArenaSet(frames, i, name, v), i, name) == Some(v)
    ensures ArenaGet(ArenaUnset(frames, i, name), i, name) ==
      match frames[i].outer
      case Some(o) => if o < i then ArenaGet(frames, o, name) else None
      case None => None
  {
    match frames[i].outer
    case Some(o) =>
      if o < i {
        ArenaGetBelow(frames, ArenaUnset(frames, i, name), o, i, name);
      }
    case None =>
  }

  /** A change to frame `i` is invisible from the frames created before it. */
  lemma {:induction false} ArenaGetBelow<V>(frames: seq<Frame<V>>, frames': seq<Frame<V>>, j: nat, i: nat, name: string)
    requires j < i <= |frames| == |frames'|
    requires forall k :: 0 <= k < i ==> frames'[k] == frames[k]
    ensures ArenaGet(frames', j, name) == ArenaGet(frames, j, name)
    decreases j
  {
    match frames[j].outer
    case Some(o) =>
      if o < j {
        ArenaGetBelow(frames, frames', o, i, name);
      }
    case None =>
  }

  /** Appending a frame leaves every lookup from the existing frames unchanged. */
  lemma {:induction false} ArenaGetAppend<V>(frames: seq<Frame<V>>, f: Frame<V>, j: nat, name: string)
    requires j < |frames|
    ensures ArenaGet(frames + [f], j, name) == ArenaGet(frames, j, name)
  {
    assert frames == (frames + [f])[..|frames|];
    ArenaGetPrefix(frames, frames + [f], j, name);
  }

  lemma {:induction false} ArenaGetPrefix<V>(frames: seq<Frame<V>>, longer: seq<Frame<V>>, j: nat, name: string)
    requires j < |frames| <= |longer| && frames == longer[..|frames|]
    ensures ArenaGet(longer, j, name) == ArenaGet(frames, j, name)
    decreases j
  {
    assert longer[j] == frames[j];
    match frames[j].outer
    case Some(o) =>
      if o < j {
        ArenaGetPrefix(frames, longer, o, name);
      }
    case None =>
  }
}
