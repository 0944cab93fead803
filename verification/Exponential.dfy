/** Exact real `exp` and `log`, known only by their laws. */
module Exponential {
  datatype ExpLog = ExpLog(exp: real -> real, log: real -> real) {
    ghost predicate Positive(x: real) { exp(x) > 0.0 }

    ghost predicate Additive(x: real, y: real) { exp(x + y) == exp(x) * exp(y) }

    ghost predicate Undone(x: real) { log(exp(x)) == x }

    ghost predicate Undoes(y: real) { y > 0.0 ==> exp(log(y)) == y }

    ghost predicate Valid() {
      && exp(0.0) == 1.0
      && (forall x :: Positive(x))
      && (forall x, y :: Additive(x, y))
      && (forall x :: Undone(x))
      && (forall y :: Undoes(y))
    }
  }

  lemma ExpPositive(E: ExpLog, x: real)
    requires E.Valid()
    ensures E.exp(x) > 0.0
  {
    assert E.Positive(x);
  }

  lemma ExpAdds(E: ExpLog, x: real, y: real)
    requires E.Valid()
    ensures E.exp(x + y) == E.exp(x) * E.exp(y)
  {
    assert E.Additive(x, y);
  }

  /** exp(x - m) rescales to exp(x - n) by the one factor exp(m - n). */
  lemma ExpRescales(E: ExpLog, x: real, m: real, n: real)
    requires E.Valid()
    ensures E.exp(x - n) == E.exp(x - m) * E.exp(m - n)
  {
    ExpAdds(E, x - m, m - n);
    assert (x - m) + (m - n) == x - n;
  }

  lemma LogOfExp(E: ExpLog, x: real)
    requires E.Valid()
    ensures E.log(E.exp(x)) == x
  {
    assert E.Undone(x);
  }

  lemma ExpOfLog(E: ExpLog, y: real)
    requires E.Valid() && y > 0.0
    ensures E.exp(E.log(y)) == y
  {
    assert E.Undoes(y);
  }

  lemma ExpInjective(E: ExpLog, x: real, y: real)
    requires E.Valid() && E.exp(x) == E.exp(y)
    ensures x == y
  {
    LogOfExp(E, x);
    LogOfExp(E, y);
  }

  lemma LogOfProduct(E: ExpLog, x: real, y: real)
    requires E.Valid() && x > 0.0 && y > 0.0
    ensures E.log(x * y) == E.log(x) + E.log(y)
  {
    var a, b := E.log(x), E.log(y);
    assert E.exp(a) == x && E.exp(b) == y by {
      ExpOfLog(E, x);
      ExpOfLog(E, y);
    }
    assert E.exp(a + b) == E.exp(a) * E.exp(b) by {
      ExpAdds(E, a, b);
    }
    var product := x * y;
    assert E.exp(a + b) == product;
    assert E.log(E.exp(a + b)) == a + b by {
      LogOfExp(E, a + b);
    }
  }
}
