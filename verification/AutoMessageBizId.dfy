/** The business id of an attempt determines the attempt. */
module AutoMessageBizId {
  import opened AutoMessageRows
  import Decimal

  lemma {:induction false} ColonFreeNumbers(n: int)
    ensures ':' !in Decimal.OfInt(n)
  {
    Decimal.OfIntCharacters(n);
  }

  lemma {:induction false} FirstColon(a: string, x: string)
    requires ':' !in a
    ensures forall i :: 0 <= i <= |a| ==> ((a + ":" + x)[i] == ':' <==> i == |a|)
  {
    assert forall i :: 0 <= i < |a| ==> a[i] in a;
  }

  /** A text cut at its first colon comes apart in one way only. */
  lemma {:induction false} CutIsUnique(a: string, x: string, b: string, y: string)
    requires ':' !in a && ':' !in b
    requires a + ":" + x == b + ":" + y
    ensures a == b && x == y
  {
    var left, right := a + ":" + x, b + ":" + y;
    FirstColon(a, x);
    FirstColon(b, y);
    assert left[|b|] == ':' && right[|a|] == ':';
    assert a == left[..|a|] && b == right[..|b|];
    assert x == left[|a| + 1..] && y == right[|b| + 1..];
  }

  /** Different configurations, slots, indexes or items never share a business id. */
  lemma {:induction false} BizIdIsInjective(c1: int, s1: int, i1: int, t1: int, c2: int, s2: int, i2: int, t2: int)
    requires BizId(c1, s1, i1, t1) == BizId(c2, s2, i2, t2)
    ensures c1 == c2 && s1 == s2 && i1 == i2 && t1 == t2
  {
    hide Decimal.OfInt;
    var C1, S1, I1, T1 := Decimal.OfInt(c1), Decimal.OfInt(s1), Decimal.OfInt(i1), Decimal.OfInt(t1);
    var C2, S2, I2, T2 := Decimal.OfInt(c2), Decimal.OfInt(s2), Decimal.OfInt(i2), Decimal.OfInt(t2);
    ColonFreeNumbers(c1);
    ColonFreeNumbers(c2);
    ColonFreeNumbers(s1);
    ColonFreeNumbers(s2);
    ColonFreeNumbers(i1);
    ColonFreeNumbers(i2);
    var rest1, rest2 := C1 + ":" + (S1 + ":" + (I1 + ":" + T1)), C2 + ":" + (S2 + ":" + (I2 + ":" + T2));
    assert BizId(c1, s1, i1, t1) == "auto_message:" + rest1;
    assert BizId(c2, s2, i2, t2) == "auto_message:" + rest2;
    assert rest1 == BizId(c1, s1, i1, t1)[|"auto_message:"|..];
    assert rest2 == BizId(c2, s2, i2, t2)[|"auto_message:"|..];
    CutIsUnique(C1, S1 + ":" + (I1 + ":" + T1), C2, S2 + ":" + (I2 + ":" + T2));
    CutIsUnique(S1, I1 + ":" + T1, S2, I2 + ":" + T2);
    CutIsUnique(I1, T1, I2, T2);
    Decimal.OfIntIsInjective(c1, c2);
    Decimal.OfIntIsInjective(s1, s2);
    Decimal.OfIntIsInjective(i1, i2);
    Decimal.OfIntIsInjective(t1, t2);
  }
}
