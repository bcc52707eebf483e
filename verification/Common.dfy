/** Types the modules share. */
module Common {
  datatype Option<+T> = None | Some(value: T)

  datatype Result<+T, +E> = Ok(value: T) | Err(error: E)

  /** The largest Rust u64. */
  const U64_MAX: nat := 0xFFFF_FFFF_FFFF_FFFF

  function Min(a: nat, b: nat): nat {
    if a <= b then a else b
  }

  function SaturatingAdd(a: nat, b: nat): nat {
    Min(a + b, U64_MAX)
  }

  /** A Rust u64. */
  type U64 = n: nat | n <= U64_MAX

  /** The bytes a character takes in UTF-8. */
  function Utf8Width(c: char): nat {
    var code := c as int;
    if code < 0x80 then 1 else if code < 0x800 then 2 else if code < 0x1_0000 then 3 else 4
  }

  /** The length of a Rust string. */
  function Utf8Length(s: string): nat {
    if s == [] then 0 else Utf8Width(s[0]) + Utf8Length(s[1..])
  }

  /** White space as `trim` knows it. */
  predicate IsWhitespace(c: char) {
    var code := c as int;
    || 0x9 <= code <= 0xD || code == 0x20 || code == 0x85 || code == 0xA0 || code == 0x1680
    || 0x2000 <= code <= 0x200A || code == 0x2028 || code == 0x2029 || code == 0x202F || code == 0x205F
    || code == 0x3000
  }

  /** Nothing is left of the text when it is trimmed. */
  predicate Blank(text: string) {
    forall i :: 0 <= i < |text| ==> IsWhitespace(text[i])
  }

  // The order in which a BTreeMap or BTreeSet visits its keys.

  predicate Ascending(ks: seq<nat>) {
    forall i, j :: 0 <= i < j < |ks| ==> ks[i] < ks[j]
  }

  predicate IsLeast(k: nat, keys: set<nat>) {
    k in keys && forall j :: j in keys ==> k <= j
  }

  /** The order in which a BTreeMap visits `keys`. */
  function KeyOrder(keys: set<nat>): (ks: seq<nat>)
    ensures Ascending(ks)
    ensures forall k :: k in ks <==> k in keys
    decreases |keys|
  {
    if keys == {} then []
    else
      LeastExists(keys);
      var k :| IsLeast(k, keys);
      var rest := KeyOrder(keys - {k});
      AscendingCons(k, rest, keys);
      [k] + rest
  }

  lemma {:induction false} AscendingCons(k: nat, rest: seq<nat>, keys: set<nat>)
    requires IsLeast(k, keys) && Ascending(rest) && forall j :: j in rest <==> j in keys - {k}
    ensures Ascending([k] + rest) && forall j :: j in [k] + rest <==> j in keys
  {
    forall i | 0 <= i < |rest| ensures k < rest[i] {
      assert rest[i] in rest;
    }
  }

  lemma {:induction false} LeastExists(keys: set<nat>)
    requires keys != {}
    ensures exists k :: IsLeast(k, keys)
    decreases |keys|
  {
    var k :| k in keys;
    if !IsLeast(k, keys) {
      var j :| j in keys && j < k;
      var below := set i | i in keys && i < k;
      assert j in below && k !in below && below < keys;
      ProperSubsetIsSmaller(below, keys);
      LeastExists(below);
      var least :| IsLeast(least, below);
      forall i | i in keys ensures least <= i {
        if i < k { assert i in below; }
      }
      assert IsLeast(least, keys);
    }
  }

  lemma {:induction false} ProperSubsetIsSmaller(a: set<nat>, b: set<nat>)
    requires a < b
    ensures |a| < |b|
    decreases a
  {
    assert b == a + (b - a);
    var x :| x in b - a;
    assert |b - a| > 0;
  }
}
