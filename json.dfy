/**
 * The dynamically typed values the core handles: tool arguments, request
 * bodies and parsed response bodies. Objects keep their members in insertion
 * order, as JavaScript objects do; a key is looked up at its first occurrence.
 * A member list may repeat a key, which no JavaScript object can; since every
 * read goes through the first occurrence, a later duplicate is never seen.
 */
module JsonValues {
  import opened Wrappers

  datatype Json =
    | JNull
    | JBool(b: bool)
    | JNum(n: real)
    | JStr(s: string)
    | JArr(items: seq<Json>)
    | JObj(members: seq<Member>)

  datatype Member = Member(key: string, value: Json)

  /** Some member of `ms` has key `key`. */
  predicate HasKey(ms: seq<Member>, key: string) {
    exists i | 0 <= i < |ms| :: ms[i].key == key
  }

  /** The value of the first member with key `key` (what `obj[key]` reads). */
  function Lookup(ms: seq<Member>, key: string): (r: Option<Json>)
    ensures r.Some? <==> HasKey(ms, key)
  {
    if ms == [] then None
    else if ms[0].key == key then Some(ms[0].value)
    else
      var r := Lookup(ms[1..], key);
      assert HasKey(ms[1..], key) ==> HasKey(ms, key) by {
        if HasKey(ms[1..], key) {
          var i :| 0 <= i < |ms[1..]| && ms[1..][i].key == key;
          assert ms[i + 1].key == key;
        }
      }
      r
  }

  /** A member with another key does not change what `key` reads, wherever it sits. */
  lemma {:induction false} LookupSkips(a: seq<Member>, m: Member, b: seq<Member>, key: string)
    requires m.key != key
    ensures Lookup(a + [m] + b, key) == Lookup(a + b, key)
    decreases |a|
  {
    if a == [] {
      assert a + [m] + b == [m] + b && a + b == b;
      assert ([m] + b)[1..] == b;
    } else {
      assert (a + [m] + b)[1..] == a[1..] + [m] + b;
      assert (a + b)[1..] == a[1..] + b;
      LookupSkips(a[1..], m, b, key);
    }
  }

  /** Looking a key up in a two-member object. */
  lemma LookupPair(a: Member, b: Member, key: string)
    ensures Lookup([a, b], key) == if a.key == key then Some(a.value) else if b.key == key then Some(b.value) else None
  {
    assert [a, b][1..] == [b];
    assert [b][1..] == [];
  }

  /** ECMAScript ToBoolean: null, false, 0, the empty string are falsy; arrays and objects are truthy. */
  predicate Truthy(v: Json) {
    match v
    case JNull => false
    case JBool(b) => b
    case JNum(n) => n != 0.0
    case JStr(s) => s != ""
    case JArr(_) => true
    case JObj(_) => true
  }
}
