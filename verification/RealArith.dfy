/** The few facts about products and quotients of reals that the solver does not find on its own. */
module RealArith {

  lemma CancelDiv(x: real, y: real, a: real)
    requires a != 0.0 && x == y * a
    ensures x / a == y
  {
  }

  lemma DivLe(x: real, y: real, a: real)
    requires a > 0.0
    ensures x <= y * a <==> x / a <= y
  {
  }

  lemma MulMono(x: real, y: real, a: real)
    requires a >= 0.0 && x <= y
    ensures x * a <= y * a
  {
  }
}
