/**
 * The runtime objects of the TypeScript interpreter (ts/src/object/index.ts).
 *
 * Objects live in a heap and are referred to by their index, so that the
 * evaluator can tell two objects apart by identity, as JavaScript's `===`
 * does, and so that `add` can change a hash in place.  A slot that JavaScript
 * leaves `undefined` (an array element, a wrapped return value, a hash value)
 * is `None`.
 */
module Objects {
  import opened Wrappers
  import opened Ast
  import opened Numerals

  /** An object's identity: its index in the heap. */
  type Ref = nat

  datatype BuiltinName = Len | First | Last | Rest | Push | Add | Print

  /** The number `hashKey` returns; strings are kept apart, standing for their SHA-256 digest. */
  datatype HashKey = NumKey(num: real) | StrKey(str: string)

  /** One entry of a hash's map: the hash key, the key object, the value. */
  datatype HashPair = HashPair(hash: HashKey, key: Ref, value: Option<Ref>)

  datatype Obj =
    | Integer(intValue: int)
    | Float(floatValue: real)
    | Bool(boolValue: bool)
    | Null
    | ReturnValue(inner: Option<Ref>)
    | ErrorObj(message: string, line: int)
    | FunctionObj(parameters: seq<Node>, body: Node, env: nat)
    | StringObj(strValue: string)
    | Builtin(name: BuiltinName)
    | ArrayObj(elements: seq<Option<Ref>>)
    | HashObj(pairs: seq<HashPair>)
    | Quote(node: Node)
    | Macro(parameters: seq<Node>, body: Node, env: nat)

  /** `type()`: the tag of the `Obj` table. */
  function TypeOf(o: Obj): string
  {
    match o
    case Integer(_) => "INTEGER"
    case Float(_) => "FLOAT"
    case Bool(_) => "BOOLEAN"
    case Null => "NULL"
    case ReturnValue(_) => "RETURN_VALUE"
    case ErrorObj(_, _) => "ERROR"
    case FunctionObj(_, _, _) => "FUNCTION"
    case StringObj(_) => "STRING"
    case Builtin(_) => "BUILTIN"
    case ArrayObj(_) => "ARRAY"
    case HashObj(_) => "HASH"
    case Quote(_) => "QUOTE"
    case Macro(_, _, _) => "MACRO"
  }

  /** The position of an object's class in the `Obj` table. */
  function KindIndex(o: Obj): nat
  {
    match o
    case Integer(_) => 0
    case Float(_) => 1
    case Bool(_) => 2
    case StringObj(_) => 3
    case ArrayObj(_) => 4
    case HashObj(_) => 5
    case FunctionObj(_, _, _) => 6
    case Builtin(_) => 7
    case Null => 8
    case ReturnValue(_) => 9
    case Quote(_) => 10
    case Macro(_, _, _) => 11
    case ErrorObj(_, _) => 12
  }

  /** Two objects report the same type tag exactly when they are of the same class. */
  lemma TypeTagsDistinct(a: Obj, b: Obj)
    ensures TypeOf(a) == TypeOf(b) <==> KindIndex(a) == KindIndex(b)
  {
    if KindIndex(a) != KindIndex(b) {
      assert TypeOf(a)[..2] != TypeOf(b)[..2] || TypeOf(a) != TypeOf(b);
    }
  }

  /** `hashKey()`, for the classes that define it. */
  function HashKeyOf(o: Obj): (k: Option<HashKey>)
    ensures k.Some? <==> o.Integer? || o.Float? || o.Bool? || o.StringObj?
  {
    match o
    case Integer(i) => Some(NumKey(i as real))
    case Float(r) => Some(NumKey(r))
    case Bool(b) => Some(NumKey(if b then 1.0 else 0.0))
    case StringObj(s) => Some(StrKey(s))
    case _ => None
  }

  /**
   * Numbers hash to their value and booleans to 1 or 0 with no type mixed
   * in, so 1, 1.0 and true collide; equal strings hash alike.
   */
  lemma HashKeysCollide(s: string)
    ensures HashKeyOf(Integer(1)) == HashKeyOf(Float(1.0)) == HashKeyOf(Bool(true))
    ensures HashKeyOf(Integer(0)) == HashKeyOf(Bool(false))
    ensures HashKeyOf(StringObj(s)) == HashKeyOf(StringObj(s + "")) && HashKeyOf(StringObj(s)).value.StrKey?
  {
    assert s + "" == s;
  }

  /** The pair stored under hash key `k`, if any. */
  function FindPair(pairs: seq<HashPair>, k: HashKey): (p: Option<HashPair>)
    ensures p.Some? ==> p.value in pairs && p.value.hash == k
    ensures p.None? ==> forall q :: q in pairs ==> q.hash != k
  {
    if |pairs| == 0 then None
    else if pairs[0].hash == k then Some(pairs[0])
    else FindPair(pairs[1..], k)
  }

  /** `Map.set`: replaces the pair with the same hash key where it stands, or appends a new one. */
  function PutPair(pairs: seq<HashPair>, p: HashPair): seq<HashPair>
  {
    if |pairs| == 0 then [p]
    else if pairs[0].hash == p.hash then [p] + pairs[1..]
    else [pairs[0]] + PutPair(pairs[1..], p)
  }

  predicate UniqueHashes(pairs: seq<HashPair>)
  {
    forall i, j :: 0 <= i < j < |pairs| ==> pairs[i].hash != pairs[j].hash
  }

  /** After a `set`, the key finds the new pair. */
  lemma {:induction false} PutPairFinds(pairs: seq<HashPair>, p: HashPair)
    ensures FindPair(PutPair(pairs, p), p.hash) == Some(p)
    decreases |pairs|
  {
    if |pairs| > 0 && pairs[0].hash != p.hash {
      PutPairFinds(pairs[1..], p);
      assert PutPair(pairs, p)[1..] == PutPair(pairs[1..], p);
    }
  }

  /** A `set` leaves what every other key finds unchanged. */
  lemma {:induction false} PutPairKeepsOthers(pairs: seq<HashPair>, p: HashPair, k: HashKey)
    requires k != p.hash
    ensures FindPair(PutPair(pairs, p), k) == FindPair(pairs, k)
    decreases |pairs|
  {
    if |pairs| > 0 {
      if pairs[0].hash == p.hash {
        assert PutPair(pairs, p)[1..] == pairs[1..];
      } else {
        PutPairKeepsOthers(pairs[1..], p, k);
        assert PutPair(pairs, p)[1..] == PutPair(pairs[1..], p);
      }
    }
  }

  /** Every pair after a `set` is the new one or was there before. */
  lemma {:induction false} PutPairMembers(pairs: seq<HashPair>, p: HashPair, q: HashPair)
    requires q in PutPair(pairs, p) && q != p
    ensures q in pairs
    decreases |pairs|
  {
    if |pairs| > 0 && pairs[0].hash != p.hash && q != pairs[0] {
      assert q in PutPair(pairs[1..], p);
      PutPairMembers(pairs[1..], p, q);
    }
  }

  /** A `set` keeps the hash keys of the map unique. */
  lemma {:induction false} PutPairUnique(pairs: seq<HashPair>, p: HashPair)
    requires UniqueHashes(pairs)
    ensures UniqueHashes(PutPair(pairs, p))
    decreases |pairs|
  {
    if |pairs| > 0 {
      var r := PutPair(pairs, p);
      if pairs[0].hash == p.hash {
        forall i, j | 0 <= i < j < |r| ensures r[i].hash != r[j].hash {
          if i == 0 {
            assert r[j] == pairs[j];
          } else {
            assert r[i] == pairs[i] && r[j] == pairs[j];
          }
        }
      } else {
        var rest := PutPair(pairs[1..], p);
        assert UniqueHashes(pairs[1..]) by {
          forall i, j | 0 <= i < j < |pairs[1..]| ensures pairs[1..][i].hash != pairs[1..][j].hash {
            assert pairs[1..][i] == pairs[i + 1] && pairs[1..][j] == pairs[j + 1];
          }
        }
        PutPairUnique(pairs[1..], p);
        assert r == [pairs[0]] + rest;
        forall j | 0 < j < |r| ensures r[0].hash != r[j].hash {
          assert r[j] == rest[j - 1];
          assert rest[j - 1] in rest;
          if rest[j - 1] != p {
            PutPairMembers(pairs[1..], p, rest[j - 1]);
            var m :| 0 <= m < |pairs[1..]| && pairs[1..][m] == rest[j - 1];
            assert pairs[m + 1] == rest[j - 1];
          } else {
            assert r[0].hash != p.hash;
          }
        }
        forall i, j | 0 <= i < j < |r| ensures r[i].hash != r[j].hash {
          if i > 0 {
            assert r[i] == rest[i - 1] && r[j] == rest[j - 1];
          }
        }
      }
    }
  }

  /**
   * An existing key keeps its place in the insertion order and a new one
   * goes last.
   */
  lemma {:induction false} PutPairOrder(pairs: seq<HashPair>, p: HashPair)
    ensures FindPair(pairs, p.hash).Some? ==>
      |PutPair(pairs, p)| == |pairs| && forall i :: 0 <= i < |pairs| ==> PutPair(pairs, p)[i].hash == pairs[i].hash
    ensures FindPair(pairs, p.hash).None? ==> PutPair(pairs, p) == pairs + [p]
    decreases |pairs|
  {
    if |pairs| > 0 && pairs[0].hash != p.hash {
      PutPairOrder(pairs[1..], p);
      var rest := PutPair(pairs[1..], p);
      assert PutPair(pairs, p) == [pairs[0]] + rest;
      assert FindPair(pairs, p.hash) == FindPair(pairs[1..], p.hash);
      if FindPair(pairs, p.hash).None? {
        assert pairs == [pairs[0]] + pairs[1..];
      } else {
        forall i | 0 <= i < |pairs| ensures PutPair(pairs, p)[i].hash == pairs[i].hash {
          if i > 0 {
            assert PutPair(pairs, p)[i] == rest[i - 1];
            assert pairs[i] == pairs[1..][i - 1];
          }
        }
      }
    }
  }

  /** `inspect()` of the parameters of a function or macro. */
  function ParamsText(params: seq<Node>): string
  {
    Join(seq(|params|, i requires 0 <= i < |params| => ToString(params[i])), ", ")
  }

  /**
   * `inspect()`.  `None` stands for the host failing: an undefined element
   * (a TypeError) or nesting deeper than `depth` (a hash that contains
   * itself overflows the stack).
   */
  function Inspect(heap: seq<Obj>, r: Option<Ref>, depth: nat): (s: Option<string>)
    decreases depth, 0
  {
    if r.None? || r.value >= |heap| || depth == 0 then None
    else
      match heap[r.value]
      case Integer(i) => Some(IntText(i))
      case Float(x) => Some(FloatText(x))
      case Bool(b) => Some(if b then "true" else "false")
      case Null => Some("null")
      case ReturnValue(v) => Inspect(heap, v, depth - 1)
      case ErrorObj(msg, _) => Some("ERROR: " + msg)
      case FunctionObj(params, body, _) => Some("fn(" + ParamsText(params) + ") {\n" + ToString(body) + "\n}")
      case StringObj(s) => Some(s)
      case Builtin(_) => Some("builtin function")
      case ArrayObj(elems) =>
        var items := InspectAll(heap, elems, depth - 1);
        if items.None? then None else Some("[" + Join(items.value, ", ") + "]")
      case HashObj(pairs) =>
        var items := InspectPairs(heap, pairs, depth - 1);
        if items.None? then None else Some("{" + Join(items.value, ", ") + "}")
      case Quote(n) => Some("QUOTE(" + ToString(n) + ")")
      case Macro(params, body, _) => Some("macro(" + ParamsText(params) + ") {\n" + ToString(body) + "\n}")
  }

  function InspectAll(heap: seq<Obj>, rs: seq<Option<Ref>>, depth: nat): (items: Option<seq<string>>)
    ensures items.Some? ==> |items.value| == |rs|
    decreases depth, 1, |rs|
  {
    if |rs| == 0 then Some([])
    else
      var first := Inspect(heap, rs[0], depth);
      var rest := InspectAll(heap, rs[1..], depth);
      if first.None? || rest.None? then None else Some([first.value] + rest.value)
  }

  function InspectPairs(heap: seq<Obj>, pairs: seq<HashPair>, depth: nat): (items: Option<seq<string>>)
    ensures items.Some? ==> |items.value| == |pairs|
    decreases depth, 1, |pairs|
  {
    if |pairs| == 0 then Some([])
    else
      var k := Inspect(heap, Some(pairs[0].key), depth);
      var v := Inspect(heap, pairs[0].value, depth);
      var rest := InspectPairs(heap, pairs[1..], depth);
      if k.None? || v.None? || rest.None? then None else Some([k.value + ": " + v.value] + rest.value)
  }

  /** An error inspects as its message after "ERROR: ", and a return value as the value it wraps. */
  lemma InspectErrorAndReturn(heap: seq<Obj>, r: Ref, depth: nat)
    requires r < |heap| && depth > 0
    ensures heap[r].ErrorObj? ==> Inspect(heap, Some(r), depth) == Some("ERROR: " + heap[r].message)
    ensures heap[r].ReturnValue? ==> Inspect(heap, Some(r), depth) == Inspect(heap, heap[r].inner, depth - 1)
  {
  }

  /** The text of a non-negative integer object reads back as its value. */
  lemma InspectIntegerReadsBack(heap: seq<Obj>, r: Ref, depth: nat)
    requires r < |heap| && depth > 0 && heap[r].Integer? && heap[r].intValue >= 0
    ensures Inspect(heap, Some(r), depth).Some?
    ensures ParseDecimal(Inspect(heap, Some(r), depth).value) == Some(heap[r].intValue as real)
  {
    IntTextParses(heap[r].intValue);
  }

  /**
   * An array of inspectable elements prints as the texts of its elements,
   * in order, comma-separated, in brackets.
   */
  lemma InspectArray(heap: seq<Obj>, r: Ref, depth: nat)
    requires r < |heap| && depth > 1 && heap[r].ArrayObj?
    requires forall i :: 0 <= i < |heap[r].elements| ==> Inspect(heap, heap[r].elements[i], depth - 1).Some?
    ensures var items := InspectAll(heap, heap[r].elements, depth - 1);
      && items.Some?
      && (forall i :: 0 <= i < |items.value| ==> items.value[i] == Inspect(heap, heap[r].elements[i], depth - 1).value)
      && Inspect(heap, Some(r), depth) == Some("[" + Join(items.value, ", ") + "]")
  {
    InspectAllElements(heap, heap[r].elements, depth - 1);
  }

  lemma {:induction false} InspectAllElements(heap: seq<Obj>, rs: seq<Option<Ref>>, depth: nat)
    requires forall i :: 0 <= i < |rs| ==> Inspect(heap, rs[i], depth).Some?
    ensures InspectAll(heap, rs, depth).Some?
    ensures forall i :: 0 <= i < |rs| ==> InspectAll(heap, rs, depth).value[i] == Inspect(heap, rs[i], depth).value
    decreases |rs|
  {
    if |rs| > 0 {
      var tail := rs[1..];
      assert forall i :: 0 <= i < |tail| ==> tail[i] == rs[i + 1];
      InspectAllElements(heap, tail, depth);
      assert Inspect(heap, rs[0], depth).Some?;
      var all := InspectAll(heap, rs, depth);
      assert all == Some([Inspect(heap, rs[0], depth).value] + InspectAll(heap, tail, depth).value);
      forall i | 0 <= i < |rs| ensures all.value[i] == Inspect(heap, rs[i], depth).value {
        if i > 0 {
          assert all.value[i] == InspectAll(heap, tail, depth).value[i - 1];
        }
      }
    }
  }
  /**
   * A hash whose keys and values all inspect prints as `key: value` for
   * each pair, in insertion order, comma-separated, in braces.
   */
  lemma InspectHash(heap: seq<Obj>, r: Ref, depth: nat)
    requires r < |heap| && depth > 1 && heap[r].HashObj?
    requires forall i :: 0 <= i < |heap[r].pairs| ==>
      Inspect(heap, Some(heap[r].pairs[i].key), depth - 1).Some? && Inspect(heap, heap[r].pairs[i].value, depth - 1).Some?
    ensures var items := InspectPairs(heap, heap[r].pairs, depth - 1);
      && items.Some?
      && (forall i :: 0 <= i < |items.value| ==>
            items.value[i] == Inspect(heap, Some(heap[r].pairs[i].key), depth - 1).value + ": " + Inspect(heap, heap[r].pairs[i].value, depth - 1).value)
      && Inspect(heap, Some(r), depth) == Some("{" + Join(items.value, ", ") + "}")
  {
    InspectPairsElements(heap, heap[r].pairs, depth - 1);
  }

  lemma {:induction false} InspectPairsElements(heap: seq<Obj>, pairs: seq<HashPair>, depth: nat)
    requires forall i :: 0 <= i < |pairs| ==> Inspect(heap, Some(pairs[i].key), depth).Some? && Inspect(heap, pairs[i].value, depth).Some?
    ensures InspectPairs(heap, pairs, depth).Some?
    ensures forall i :: 0 <= i < |pairs| ==>
      InspectPairs(heap, pairs, depth).value[i] == Inspect(heap, Some(pairs[i].key), depth).value + ": " + Inspect(heap, pairs[i].value, depth).value
    decreases |pairs|
  {
    if |pairs| > 0 {
      var tail := pairs[1..];
      assert forall i :: 0 <= i < |tail| ==> tail[i] == pairs[i + 1];
      InspectPairsElements(heap, tail, depth);
      var all := InspectPairs(heap, pairs, depth);
      var first := Inspect(heap, Some(pairs[0].key), depth).value + ": " + Inspect(heap, pairs[0].value, depth).value;
      assert all == Some([first] + InspectPairs(heap, tail, depth).value);
      forall i | 0 <= i < |pairs|
        ensures all.value[i] == Inspect(heap, Some(pairs[i].key), depth).value + ": " + Inspect(heap, pairs[i].value, depth).value
      {
        if i > 0 {
          assert all.value[i] == InspectPairs(heap, tail, depth).value[i - 1];
        }
      }
    }
  }

  /** One pair that does not inspect makes the whole pair list fail. */
  lemma {:induction false} InspectPairsFailsAt(heap: seq<Obj>, pairs: seq<HashPair>, j: nat, depth: nat)
    requires j < |pairs| && Inspect(heap, pairs[j].value, depth).None?
    ensures InspectPairs(heap, pairs, depth).None?
    decreases j
  {
    if j > 0 {
      InspectPairsFailsAt(heap, pairs[1..], j - 1, depth);
    }
  }

  /**
   * A hash that holds itself as a value (which `add` can build, since it
   * updates the hash in place) never inspects, at any depth: in the host its
   * `inspect()` recurses until the stack overflows.
   */
  lemma {:induction false} SelfContainingHashNeverInspects(heap: seq<Obj>, r: Ref, j: nat, depth: nat)
    requires r < |heap| && heap[r].HashObj? && j < |heap[r].pairs| && heap[r].pairs[j].value == Some(r)
    ensures Inspect(heap, Some(r), depth).None?
    decreases depth
  {
    if depth > 0 {
      SelfContainingHashNeverInspects(heap, r, j, depth - 1);
      InspectPairsFailsAt(heap, heap[r].pairs, j, depth - 1);
    }
  }
}
