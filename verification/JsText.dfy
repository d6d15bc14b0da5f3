/** JavaScript strings: sequences of UTF-16 code units, ordered code unit by code unit. */
module JsText {
  import opened Sorting

  newtype CodeUnit = x: int | 0 <= x < 0x1_0000

  type JsString = seq<CodeUnit>

  /** The `<` of JavaScript on two strings. */
  predicate Less(a: JsString, b: JsString) {
    if b == [] then false
    else if a == [] then true
    else if a[0] != b[0] then a[0] < b[0]
    else Less(a[1..], b[1..])
  }

  predicate AtMost(a: JsString, b: JsString) {
    a == b || Less(a, b)
  }

  const ATMOST: (JsString, JsString) -> bool := (a, b) => AtMost(a, b)

  lemma {:induction false} LessTotal(a: JsString, b: JsString)
    ensures a == b || Less(a, b) || Less(b, a)
    ensures !(Less(a, b) && Less(b, a)) && (a == b ==> !Less(a, b))
  {
    if a != [] && b != [] && a[0] == b[0] {
      LessTotal(a[1..], b[1..]);
      assert a == [a[0]] + a[1..] && b == [b[0]] + b[1..];
    }
  }

  lemma {:induction false} LessTransitive(a: JsString, b: JsString, c: JsString)
    requires Less(a, b) && Less(b, c)
    ensures Less(a, c)
  {
    if a != [] && a[0] == b[0] && b[0] == c[0] {
      LessTransitive(a[1..], b[1..], c[1..]);
    }
  }

  lemma AtMostOrder()
    ensures TotalPreorder(ATMOST) && Antisymmetric(ATMOST)
  {
    forall a, b ensures (ATMOST(a, b) || ATMOST(b, a)) && (ATMOST(a, b) && ATMOST(b, a) ==> a == b) {
      LessTotal(a, b);
    }
    forall a, b, c | ATMOST(a, b) && ATMOST(b, c) ensures ATMOST(a, c) {
      if a != b && b != c { LessTransitive(a, b, c); }
    }
  }

  /** `array.sort()` on strings. */
  function SortStrings(s: seq<JsString>): (r: seq<JsString>)
    ensures Ascending(ATMOST, r) && multiset(r) == multiset(s)
    ensures |r| == |s| && forall x :: x in r <==> x in s
  {
    AtMostOrder();
    Sort(ATMOST, s)
  }
}
