/** Value types and small arithmetic helpers shared by both diagram variants.
    Python floats are modelled as exact reals throughout. */
module Basics {

  /** Python's `None` or a value. */
  datatype Option<T> = None | Some(value: T)

  /** True when an optional string is "truthy" in Python: present and non-empty. */
  predicate Truthy(o: Option<string>)
  {
    o.Some? && o.value != ""
  }

  /** A point in item or scene coordinates (QPointF). */
  datatype Point = Point(x: real, y: real)

  /** A rectangle given by its top-left corner and its size (QRectF). */
  datatype Rect = Rect(left: real, top: real, width: real, height: real)
  {
    function Center(): (c: Point)
      ensures c.x - left == left + width - c.x
      ensures c.y - top == top + height - c.y
    {
      Point(left + width / 2.0, top + height / 2.0)
    }

    function Right(): real
    {
      left + width
    }
  }

  function Min(a: real, b: real): (r: real)
    ensures r <= a && r <= b
    ensures r == a || r == b
  {
    if a <= b then a else b
  }

  function Max(a: real, b: real): (r: real)
    ensures r >= a && r >= b
    ensures r == a || r == b
  {
    if a >= b then a else b
  }

  function Abs(a: real): (r: real)
    ensures r >= 0.0
    ensures r == a || r == -a
  {
    if a < 0.0 then -a else a
  }

  /** `max(lo, min(hi, x))`, the clamp both viewports use. */
  function Clamp(x: real, lo: real, hi: real): (r: real)
    requires lo <= hi
    ensures lo <= r <= hi
    ensures lo <= x <= hi ==> r == x
    ensures x < lo ==> r == lo
    ensures x > hi ==> r == hi
  {
    Max(lo, Min(hi, x))
  }

  /** Multiplying both sides of `x <= y` by a non-negative factor keeps the order. */
  lemma MulLe(a: real, x: real, y: real)
    requires a >= 0.0 && x <= y
    ensures a * x <= a * y
  {
    assert a * y - a * x == a * (y - x);
  }

  /** Multiplying both sides of `x < y` by a positive factor keeps the strict order. */
  lemma MulLt(a: real, x: real, y: real)
    requires a > 0.0 && x < y
    ensures a * x < a * y
  {
    assert a * y - a * x == a * (y - x);
  }

  /** A positive factor can be cancelled from both sides of an inequality. */
  lemma MulLeCancel(a: real, x: real, y: real)
    requires a > 0.0 && x * a <= y * a
    ensures x <= y
  {
    if x > y {
      MulLt(a, y, x);
      assert false;
    }
  }

  /** A non-zero factor can be cancelled from both sides of an equation. */
  lemma MulCancel(a: real, b: real, s: real)
    requires s != 0.0 && a * s == b * s
    ensures a == b
  {
    assert a == (a * s) / s;
    assert b == (b * s) / s;
  }

  /** Dividing both sides of `a <= b` by a positive divisor keeps the order. */
  lemma DivLe(a: real, b: real, d: real)
    requires d > 0.0 && a <= b
    ensures a / d <= b / d
  {
    assert (a / d) * d == a && (b / d) * d == b;
    if a / d > b / d {
      assert false;
    }
  }

  /** The absolute value of a product is the product of the absolute values. */
  lemma AbsMul(a: real, b: real)
    ensures Abs(a * b) == Abs(a) * Abs(b)
  {
    if a >= 0.0 {
      if b >= 0.0 { MulLe(a, 0.0, b); } else { MulLe(a, b, 0.0); }
    } else {
      if b >= 0.0 { MulLe(b, a, 0.0); } else { MulLe(-a, b, 0.0); }
    }
  }

  /** The quotient of two numbers of the same sign is positive. */
  lemma PositiveQuotient(a: real, b: real)
    requires (a > 0.0 && b > 0.0) || (a < 0.0 && b < 0.0)
    ensures a / b > 0.0 && (a / b) * b == a
  {
    var u := a / b;
    assert u * b == a;
    if u <= 0.0 {
      if b > 0.0 { MulLe(b, u, 0.0); } else { MulLe(-b, u, 0.0); }
      assert false;
    }
  }

  /** `sub` occurs in `s` starting at index `i`. */
  predicate OccursAt(sub: string, s: string, i: int)
  {
    0 <= i <= |s| - |sub| && s[i..i + |sub|] == sub
  }

  /** Python's `sub in s` on strings. */
  predicate IsSubstring(sub: string, s: string)
  {
    exists i | 0 <= i <= |s| - |sub| :: OccursAt(sub, s, i)
  }

  /** A string that contains `sub` still contains it after anything is appended. */
  lemma SubstringOfPrefix(sub: string, s: string, t: string)
    requires IsSubstring(sub, s)
    ensures IsSubstring(sub, s + t)
  {
    var i :| 0 <= i <= |s| - |sub| && OccursAt(sub, s, i);
    assert (s + t)[i..i + |sub|] == s[i..i + |sub|];
    assert OccursAt(sub, s + t, i);
  }

  /** A string contains every one of its suffixes. */
  lemma SuffixIsSubstring(s: string, t: string, sub: string)
    requires IsSubstring(sub, t)
    ensures IsSubstring(sub, s + t)
  {
    var i :| 0 <= i <= |t| - |sub| && OccursAt(sub, t, i);
    assert (s + t)[|s| + i..|s| + i + |sub|] == t[i..i + |sub|];
    assert OccursAt(sub, s + t, |s| + i);
  }
}
