// JavaScript values as they reach the validators and sanitisers: parsed JSON
// bodies and plain objects. Object entries keep their insertion order.
module JsValue {

  /** A JavaScript number. */
  datatype Num = Finite(r: real) | NaN | PosInf | NegInf

  datatype Field = Field(key: string, value: Value)

  /** `Other` stands for a function or a symbol. */
  datatype Value =
    | Undefined
    | Null
    | Bool(b: bool)
    | Number(n: Num)
    | Str(s: string)
    | Arr(items: seq<Value>)
    | Obj(fields: seq<Field>)
    | Other

  /** JavaScript truthiness, as used by `!x`, `x || y` and `if (x)`. */
  predicate Truthy(v: Value)
  {
    match v
    case Undefined => false
    case Null => false
    case Bool(b) => b
    case Number(n) => (n.Finite? && n.r != 0.0) || n.PosInf? || n.NegInf?
    case Str(s) => s != ""
    case _ => true
  }

  /** `typeof v === 'object'` (which includes `null` and arrays). */
  predicate IsObjectType(v: Value)
  {
    v.Null? || v.Arr? || v.Obj?
  }

  /** `x || y`. */
  function Or(x: Value, y: Value): (r: Value)
    ensures Truthy(x) ==> r == x
    ensures !Truthy(x) ==> r == y
  {
    if Truthy(x) then x else y
  }

  /** The value stored under `key` in a list of entries, else `undefined`. */
  function Lookup(fields: seq<Field>, key: string): (r: Value)
    ensures r != Undefined ==> exists i :: 0 <= i < |fields| && fields[i].key == key && fields[i].value == r
    ensures (forall i :: 0 <= i < |fields| ==> fields[i].key != key) ==> r == Undefined
  {
    if |fields| == 0 then Undefined
    else if fields[0].key == key then fields[0].value
    else Lookup(fields[1..], key)
  }

  /** Property access `v.key` on a parsed JSON value. */
  function Get(v: Value, key: string): Value
  {
    if v.Obj? then Lookup(v.fields, key) else Undefined
  }

  /** `key` is an own key of the entries. */
  predicate HasKey(fields: seq<Field>, key: string)
  {
    exists i :: 0 <= i < |fields| && fields[i].key == key
  }

  lemma HasKeyCons(f: Field, rest: seq<Field>, key: string)
    ensures HasKey([f] + rest, key) <==> f.key == key || HasKey(rest, key)
  {
    var s := [f] + rest;
    assert forall i :: 1 <= i < |s| ==> s[i] == rest[i - 1];
    if HasKey(rest, key) {
      var i :| 0 <= i < |rest| && rest[i].key == key;
      assert s[i + 1].key == key;
    }
    if HasKey(s, key) && f.key != key {
      var i :| 0 <= i < |s| && s[i].key == key;
      assert i > 0 && rest[i - 1].key == key;
    }
    if f.key == key {
      assert s[0].key == key;
    }
  }

  /** Growing a prefix of the entries by one adds exactly that entry's key. */
  lemma HasKeyPrefixStep(fields: seq<Field>, i: nat)
    requires i < |fields|
    ensures forall k :: HasKey(fields[..i + 1], k) <==> HasKey(fields[..i], k) || fields[i].key == k
  {
    forall k ensures HasKey(fields[..i + 1], k) <==> HasKey(fields[..i], k) || fields[i].key == k {
      if HasKey(fields[..i + 1], k) {
        var j :| 0 <= j < i + 1 && fields[..i + 1][j].key == k;
        if j < i {
          assert fields[..i][j].key == k;
        }
      }
      if HasKey(fields[..i], k) {
        var j :| 0 <= j < i && fields[..i][j].key == k;
        assert fields[..i + 1][j].key == k;
      }
      if fields[i].key == k {
        assert fields[..i + 1][i].key == k;
      }
    }
  }

  /** The key whose assignment on a plain object runs the inherited prototype setter. */
  const ProtoKey: string := "__proto__"

  /**
   * `target[key] = v` on a plain object: an existing key keeps its place.
   * Assigning `__proto__` runs `Object.prototype`'s setter instead, which
   * creates no own entry (an object value becomes the prototype, any other
   * value is ignored), so the own entries stay as they are.
   */
  function Assign(fields: seq<Field>, key: string, v: Value): seq<Field>
  {
    if key == ProtoKey then fields
    else if |fields| == 0 then [Field(key, v)]
    else if fields[0].key == key then [Field(key, v)] + fields[1..]
    else [fields[0]] + Assign(fields[1..], key, v)
  }

  /** After the assignment `key` reads `v`, unless the setter took it. */
  lemma {:induction false} AssignRead(fields: seq<Field>, key: string, v: Value)
    ensures Lookup(Assign(fields, key, v), key) == if key == ProtoKey then Lookup(fields, key) else v
  {
    if key != ProtoKey && |fields| > 0 && fields[0].key != key {
      AssignRead(fields[1..], key, v);
      assert Assign(fields, key, v)[1..] == Assign(fields[1..], key, v);
    }
  }

  /** The assignment leaves every other key reading as before. */
  lemma {:induction false} AssignOther(fields: seq<Field>, key: string, v: Value, k: string)
    requires k != key
    ensures Lookup(Assign(fields, key, v), k) == Lookup(fields, k)
  {
    if key != ProtoKey && |fields| > 0 {
      var r := Assign(fields, key, v);
      if fields[0].key == key {
        assert r[1..] == fields[1..];
      } else {
        AssignOther(fields[1..], key, v, k);
        assert r[1..] == Assign(fields[1..], key, v);
      }
    }
  }

  /** The assignment adds `key`, unless it is `__proto__`, and no other key. */
  lemma {:induction false} AssignKeys(fields: seq<Field>, key: string, v: Value)
    ensures forall k :: HasKey(Assign(fields, key, v), k) <==> HasKey(fields, k) || (k == key && key != ProtoKey)
  {
    var r := Assign(fields, key, v);
    if key == ProtoKey {
    } else if |fields| == 0 {
      forall k ensures HasKey(r, k) <==> k == key {
        HasKeyCons(Field(key, v), [], k);
      }
    } else {
      assert fields == [fields[0]] + fields[1..];
      var rest := if fields[0].key == key then fields[1..] else Assign(fields[1..], key, v);
      var head := if fields[0].key == key then Field(key, v) else fields[0];
      assert r == [head] + rest;
      if fields[0].key != key {
        AssignKeys(fields[1..], key, v);
      }
      forall k ensures HasKey(r, k) <==> HasKey(fields, k) || k == key {
        HasKeyCons(head, rest, k);
        HasKeyCons(fields[0], fields[1..], k);
      }
    }
  }

  /**
   * After the assignment `key` reads `v` and is an own key, unless it is
   * `__proto__`, which leaves the entries alone; every other key reads as
   * before; one key is added at most.
   */
  lemma AssignFacts(fields: seq<Field>, key: string, v: Value)
    ensures key != ProtoKey ==> Lookup(Assign(fields, key, v), key) == v
    ensures key == ProtoKey ==> Assign(fields, key, v) == fields
    ensures forall k :: k != key ==> Lookup(Assign(fields, key, v), k) == Lookup(fields, k)
    ensures forall k :: HasKey(Assign(fields, key, v), k) <==> HasKey(fields, k) || (k == key && key != ProtoKey)
  {
    AssignRead(fields, key, v);
    forall k | k != key
      ensures Lookup(Assign(fields, key, v), k) == Lookup(fields, k)
    {
      AssignOther(fields, key, v, k);
    }
    AssignKeys(fields, key, v);
  }
}
