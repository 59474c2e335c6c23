/**
 * The builtin functions of ts/src/evaluator/builtins.ts.
 *
 * Arguments arrive as the evaluator produced them, so any of them may be
 * `undefined` (`None`); reading a property of one makes the host throw.
 */
module Builtins {
  import opened Wrappers
  import opened Objects
  import opened Numerals
  import opened Runtime

  /** The number of arguments each builtin insists on; `print` takes any number. */
  function Arity(b: BuiltinName): Option<nat>
  {
    match b
    case Len => Some(1)
    case First => Some(1)
    case Last => Some(1)
    case Rest => Some(1)
    case Push => Some(2)
    case Add => Some(3)
    case Print => None
  }

  function WrongArity(st: State, got: nat, want: nat): Step<Option<Ref>>
  {
    NewError(st, "wrong number of arguments. got=" + IntText(got) + ", want=" + IntText(want))
  }

  /**
   * Every argument of `print` has an `inspect()` text. A chain of objects
   * that visits none twice is at most `|heap|` long, so `|heap| + 1` levels
   * stand for an unbounded recursion: failing within them means an undefined
   * value inside the argument, or an argument that contains itself.
   */
  predicate Printable(st: State, args: seq<Option<Ref>>)
  {
    forall i :: 0 <= i < |args| ==> Inspect(st.heap, args[i], |st.heap| + 1).Some?
  }

  /** Calls builtin `b` on `args`. */
  function ApplyBuiltin(st: State, b: BuiltinName, args: seq<Option<Ref>>): Step<Option<Ref>>
  {
    match b
    case Print =>
      if exists i :: 0 <= i < |args| && args[i].None? then Step(Thrown(TypeError), st)
      else if !Printable(st, args) then Step(Thrown(Uninspectable), st)
      else Step(Normal(Some(NULL)), st)
    case Len =>
      if |args| != 1 then WrongArity(st, |args|, 1)
      else if args[0].None? then Step(Thrown(TypeError), st)
      else
        var a := Deref(st, args[0].value);
        (match a
         case StringObj(s) => Yield(st, Integer(|s|))
         case ArrayObj(elems) => Yield(st, Integer(|elems|))
         case _ => NewError(st, "argument to `len` not supported, got " + TypeOf(a)))
    case Add =>
      if |args| != 3 then WrongArity(st, |args|, 3)
      else if args[0].None? then Step(Thrown(TypeError), st)
      else AddPair(st, args[0].value, args[1], args[2])
    case _ =>
      var want := Arity(b).value;
      if |args| != want then WrongArity(st, |args|, want)
      else if args[0].None? then Step(Thrown(TypeError), st)
      else
        var a := Deref(st, args[0].value);
        match a
        case ArrayObj(elems) => ArrayBuiltin(st, b, elems, args)
        case _ => NewError(st, "argument to `first` must be ARRAY, got " + TypeOf(a))
  }

  /** `first`, `last`, `rest` and `push` once their first argument is known to be an array. */
  function ArrayBuiltin(st: State, b: BuiltinName, elems: seq<Option<Ref>>, args: seq<Option<Ref>>): Step<Option<Ref>>
    requires b == Push ==> |args| == 2
  {
    if b == First then Step(Normal(if |elems| > 0 then elems[0] else Some(NULL)), st)
    else if b == Last then
      if |elems| > 0 then Step(Thrown(ReferenceError), st) else Step(Normal(Some(NULL)), st)
    else if b == Rest then
      if |elems| > 0 then Yield(st, ArrayObj(elems[1..])) else Step(Normal(Some(NULL)), st)
    else if b == Push then Yield(st, ArrayObj(elems + [args[1]]))
    else Step(Thrown(TypeError), st)
  }

  /** `add(hash, key, value)`: stores the pair in the hash itself and returns that hash. */
  function AddPair(st: State, hash: Ref, key: Option<Ref>, value: Option<Ref>): Step<Option<Ref>>
  {
    var h := Deref(st, hash);
    if !h.HashObj? then NewError(st, "argument to `first` must be HASHMAP, got " + TypeOf(h))
    else if key.None? then Step(Thrown(TypeError), st)
    else
      var k := Deref(st, key.value);
      match HashKeyOf(k)
      case None => NewError(st, "unusable as hash key: " + TypeOf(k))
      case Some(hk) =>
        var pairs := PutPair(h.pairs, HashPair(hk, key.value, value));
        Step(Normal(Some(hash)), State(st.heap[hash := HashObj(pairs)], st.frames))
  }

  /** Every builtin but `print` checks its argument count before anything else. */
  lemma ArityCheckedFirst(st: State, b: BuiltinName, args: seq<Option<Ref>>)
    requires Arity(b).Some? && |args| != Arity(b).value
    ensures var s := ApplyBuiltin(st, b, args);
      s.c == Normal(Some(|st.heap|)) && s.st.frames == st.frames &&
      s.st.heap == st.heap + [ErrorObj("wrong number of arguments. got=" + IntText(|args|) + ", want=" + IntText(Arity(b).value), 0)]
  {
  }

  /** `len` of a string is its length and of an array its element count; anything else is an error. */
  lemma LenResult(st: State, arg: Ref)
    ensures var a := Deref(st, arg);
      var s := ApplyBuiltin(st, Len, [Some(arg)]);
      s.c == Normal(Some(|st.heap|)) &&
      Deref(s.st, |st.heap|) ==
        if a.StringObj? then Integer(|a.strValue|)
        else if a.ArrayObj? then Integer(|a.elements|)
        else ErrorObj("argument to `len` not supported, got " + TypeOf(a), 0)
  {
  }

  /** `first`, `last`, `rest` and `push` on anything but an array give the error that names `first`. */
  lemma ArrayBuiltinsRejectOthers(st: State, b: BuiltinName, args: seq<Option<Ref>>)
    requires b in {First, Last, Rest, Push} && |args| == Arity(b).value && args[0].Some?
    requires !Deref(st, args[0].value).ArrayObj?
    ensures var s := ApplyBuiltin(st, b, args);
      s.c == Normal(Some(|st.heap|)) &&
      Deref(s.st, |st.heap|) == ErrorObj("argument to `first` must be ARRAY, got " + TypeOf(Deref(st, args[0].value)), 0)
  {
  }

  /**
   * `first` gives element 0 and `rest` a new array of the other elements,
   * and both give NULL for an empty array; neither changes the heap's
   * existing objects.
   */
  lemma FirstAndRest(st: State, arr: Ref)
    requires Deref(st, arr).ArrayObj?
    ensures var elems := Deref(st, arr).elements;
      && ApplyBuiltin(st, First, [Some(arr)]) == Step(Normal(if |elems| > 0 then elems[0] else Some(NULL)), st)
      && (|elems| == 0 ==> ApplyBuiltin(st, Rest, [Some(arr)]) == Step(Normal(Some(NULL)), st))
      && (|elems| > 0 ==>
          var s := ApplyBuiltin(st, Rest, [Some(arr)]);
          s.c == Normal(Some(|st.heap|)) && s.st.heap == st.heap + [ArrayObj(elems[1..])])
  {
  }

  /** `last` of an empty array is NULL; of a non-empty one, the unbound global it reads makes the host throw. */
  lemma LastResult(st: State, arr: Ref)
    requires Deref(st, arr).ArrayObj?
    ensures ApplyBuiltin(st, Last, [Some(arr)]) ==
      if |Deref(st, arr).elements| == 0 then Step(Normal(Some(NULL)), st) else Step(Thrown(ReferenceError), st)
  {
  }

  /** `push` makes a new array of the elements and the new one, leaving the argument array as it was. */
  lemma PushMakesNewArray(st: State, arr: Ref, v: Option<Ref>)
    requires Deref(st, arr).ArrayObj?
    ensures var s := ApplyBuiltin(st, Push, [Some(arr), v]);
      && s.c == Normal(Some(|st.heap|))
      && s.st.heap == st.heap + [ArrayObj(Deref(st, arr).elements + [v])]
      && Deref(s.st, arr) == Deref(st, arr)
  {
  }

  /**
   * `add` stores the pair in the given hash, where the key now finds it and
   * every other key finds what it found before, and returns that same hash;
   * no other object changes.
   */
  lemma AddUpdatesInPlace(st: State, hash: Ref, key: Ref, v: Option<Ref>, other: HashKey)
    requires hash < |st.heap| && st.heap[hash].HashObj?
    requires HashKeyOf(Deref(st, key)).Some? && other != HashKeyOf(Deref(st, key)).value
    ensures var s := ApplyBuiltin(st, Add, [Some(hash), Some(key), v]);
      var k := HashKeyOf(Deref(st, key)).value;
      && s.c == Normal(Some(hash))
      && |s.st.heap| == |st.heap| && s.st.frames == st.frames
      && (forall r :: 0 <= r < |st.heap| && r != hash ==> s.st.heap[r] == st.heap[r])
      && s.st.heap[hash].HashObj?
      && FindPair(s.st.heap[hash].pairs, k) == Some(HashPair(k, key, v))
      && FindPair(s.st.heap[hash].pairs, other) == FindPair(st.heap[hash].pairs, other)
  {
    var k := HashKeyOf(Deref(st, key)).value;
    PutPairFinds(st.heap[hash].pairs, HashPair(k, key, v));
    PutPairKeepsOthers(st.heap[hash].pairs, HashPair(k, key, v), other);
  }

  /** `add` with a first argument that is not a hash, or a key without `hashKey`, is an error. */
  lemma AddErrors(st: State, hash: Ref, key: Ref, v: Option<Ref>)
    ensures var h := Deref(st, hash);
      var k := Deref(st, key);
      var s := ApplyBuiltin(st, Add, [Some(hash), Some(key), v]);
      && (!h.HashObj? ==>
          s.c == Normal(Some(|st.heap|)) &&
          Deref(s.st, |st.heap|) == ErrorObj("argument to `first` must be HASHMAP, got " + TypeOf(h), 0))
      && (h.HashObj? && HashKeyOf(k).None? ==>
          s.c == Normal(Some(|st.heap|)) &&
          Deref(s.st, |st.heap|) == ErrorObj("unusable as hash key: " + TypeOf(k), 0))
  {
  }

  /**
   * `print` leaves the state alone and answers NULL exactly when every
   * argument inspects; otherwise `inspect()` throws in the host. The console
   * output itself is not modelled.
   */
  lemma PrintResult(st: State, args: seq<Option<Ref>>)
    ensures var s := ApplyBuiltin(st, Print, args);
      && s.st == st
      && (s.c == Normal(Some(NULL)) <==> Printable(st, args))
      && (s.c.Thrown? <==> exists i :: 0 <= i < |args| && Inspect(st.heap, args[i], |st.heap| + 1).None?)
  {
    if i :| 0 <= i < |args| && args[i].None? {
      assert Inspect(st.heap, args[i], |st.heap| + 1).None?;
    }
  }

  /** `print([f()])` with `f()` undefined: `inspect()` of the array throws on its element. */
  lemma PrintUndefinedElement(st: State, r: Ref)
    requires r < |st.heap| && st.heap[r] == ArrayObj([None])
    ensures ApplyBuiltin(st, Print, [Some(r)]) == Step(Thrown(Uninspectable), st)
  {
    assert InspectAll(st.heap, [None], |st.heap|).None?;
    assert Inspect(st.heap, [Some(r)][0], |st.heap| + 1).None?;
  }

  /** `print` of a hash that holds itself overflows the host's stack. */
  lemma PrintSelfContainingHash(st: State, r: Ref, j: nat)
    requires r < |st.heap| && st.heap[r].HashObj? && j < |st.heap[r].pairs| && st.heap[r].pairs[j].value == Some(r)
    ensures ApplyBuiltin(st, Print, [Some(r)]) == Step(Thrown(Uninspectable), st)
  {
    SelfContainingHashNeverInspects(st.heap, r, j, |st.heap| + 1);
    assert Inspect(st.heap, [Some(r)][0], |st.heap| + 1).None?;
  }
}
