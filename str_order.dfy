/** The order `strcmp` imposes on NUL-free C strings.

    Characters are compared by code point; for text held as UTF-8 this is the
    same order as comparing the encoded bytes as `unsigned char`, which is what
    `strcmp` does. A string that is a proper prefix of another sorts first,
    because the terminating NUL is smaller than every other byte. Only the sign
    of `strcmp` is modelled. */
module StrOrder {

  /** Sign of `strcmp(a, b)`. */
  function StrCmp(a: string, b: string): (r: int)
    ensures -1 <= r <= 1
    ensures r == 0 <==> a == b
  {
    if a == [] then (if b == [] then 0 else -1)
    else if b == [] then 1
    else if a[0] < b[0] then -1
    else if a[0] > b[0] then 1
    else
      var r := StrCmp(a[1..], b[1..]);
      assert r == 0 ==> a == [a[0]] + a[1..] == [b[0]] + b[1..] == b;
      assert a == b ==> a[1..] == b[1..];
      r
  }

  /** `strcmp(a, b) <= 0`: `a` may come before `b` in a sorted buffer. */
  predicate StrLe(a: string, b: string) {
    StrCmp(a, b) <= 0
  }

  /** Swapping the arguments of `strcmp` flips its sign. */
  lemma {:induction false} StrCmpFlip(a: string, b: string)
    ensures StrCmp(b, a) == -StrCmp(a, b)
  {
    if a != [] && b != [] && a[0] == b[0] {
      StrCmpFlip(a[1..], b[1..]);
    }
  }

  /** `StrLe` is total: any two strings are comparable. */
  lemma StrLeTotal(a: string, b: string)
    ensures StrLe(a, b) || StrLe(b, a)
  {
    StrCmpFlip(a, b);
  }

  /** `StrLe` is antisymmetric: strings that sort both ways are equal. */
  lemma StrLeAntisymmetric(a: string, b: string)
    requires StrLe(a, b) && StrLe(b, a)
    ensures a == b
  {
    StrCmpFlip(a, b);
  }

  /** `StrLe` is transitive. */
  lemma {:induction false} StrLeTransitive(a: string, b: string, c: string)
    requires StrLe(a, b) && StrLe(b, c)
    ensures StrLe(a, c)
  {
    if a != [] && b != [] && c != [] && a[0] == b[0] == c[0] {
      StrLeTransitive(a[1..], b[1..], c[1..]);
    }
  }
}
