/** Small helpers shared by the model: an Option type, Java's 32-bit `int`
    arithmetic, and the two string tests the controller uses. */
module Common {

  datatype Option<T> = None | Some(value: T)

  const INT_MIN: int := -0x8000_0000
  const INT_MAX: int := 0x7FFF_FFFF
  const INT_RANGE: int := 0x1_0000_0000

  /** `x` is a value of Java's `int` type. */
  predicate IsInt32(x: int) {
    INT_MIN <= x <= INT_MAX
  }

  /** The Java `int` that two's-complement arithmetic leaves of the exact value `x`. */
  function Wrap32(x: int): (r: int)
    ensures IsInt32(r)
    ensures (x - r) % INT_RANGE == 0
    ensures IsInt32(x) ==> r == x
  {
    (x - INT_MIN) % INT_RANGE + INT_MIN
  }

  /** Java's `x + 1` (and `x++`) on an `int`. */
  function Inc32(x: int): (r: int)
    requires IsInt32(x)
    ensures IsInt32(r)
    ensures x < INT_MAX ==> r == x + 1
    ensures x == INT_MAX ==> r == INT_MIN
  {
    Wrap32(x + 1)
  }

  /** ASCII lower-casing of one character; every other character is left alone. */
  function ToLowerAscii(c: char): char {
    if 'A' <= c <= 'Z' then (c as int + 32) as char else c
  }

  /** `String.equalsIgnoreCase`, restricted to ASCII case folding. */
  predicate EqualsIgnoreCase(a: string, b: string) {
    |a| == |b| && forall i :: 0 <= i < |a| ==> ToLowerAscii(a[i]) == ToLowerAscii(b[i])
  }

  predicate IsPrefix(p: string, s: string) {
    |p| <= |s| && s[..|p|] == p
  }

  /** `String.contains`: `sub` occurs somewhere in `s`. */
  predicate Contains(s: string, sub: string)
    decreases |s|
  {
    IsPrefix(sub, s) || (|s| > 0 && Contains(s[1..], sub))
  }

  /** `sub` occurs in `s` starting at position `i`. */
  predicate OccursAt(s: string, sub: string, i: int) {
    0 <= i && i + |sub| <= |s| && s[i..i + |sub|] == sub
  }

  /** `order` lists every element of `keys` exactly once: the order in which
      iterating a Java map's key set visits its keys. */
  ghost predicate Enumerates<K(!new)>(order: seq<K>, keys: set<K>) {
    (forall i, j :: 0 <= i < j < |order| ==> order[i] != order[j]) &&
    (forall k :: k in order <==> k in keys)
  }

  /** The recursive `Contains` agrees with the positional definition. */
  lemma {:induction false} ContainsAt(s: string, sub: string)
    ensures Contains(s, sub) <==> exists i :: OccursAt(s, sub, i)
    decreases |s|
  {
    if |s| > 0 {
      ContainsAt(s[1..], sub);
      if IsPrefix(sub, s) {
        assert OccursAt(s, sub, 0);
      }
      if Contains(s[1..], sub) {
        var i :| OccursAt(s[1..], sub, i);
        assert s[i + 1..i + 1 + |sub|] == s[1..][i..i + |sub|];
        assert OccursAt(s, sub, i + 1);
      }
      if exists i :: OccursAt(s, sub, i) {
        var i :| OccursAt(s, sub, i);
        if i > 0 {
          assert s[1..][i - 1..i - 1 + |sub|] == s[i..i + |sub|];
          assert OccursAt(s[1..], sub, i - 1);
        } else {
          assert IsPrefix(sub, s);
        }
      }
    } else if sub == [] {
      assert OccursAt(s, sub, 0);
    }
  }

  /** Concatenation regrouped. */
  lemma AppendAssoc<T>(a: seq<T>, b: seq<T>, c: seq<T>)
    ensures (a + b) + c == a + (b + c)
  {
  }
}
