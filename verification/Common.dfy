/** What several components use: an optional value, numbers cut towards zero, and sums. */
module Common {

  datatype Option<T> = None | Some(value: T)

  /** The nearest integer towards zero. */
  function Trunc(x: real): int {
    if x >= 0.0 then x.Floor else -((-x).Floor)
  }

  function Sum(s: seq<int>): int {
    if s == [] then 0 else Sum(s[..|s| - 1]) + s[|s| - 1]
  }

  lemma {:induction false} SumAppend(a: seq<int>, b: seq<int>)
    ensures Sum(a + b) == Sum(a) + Sum(b)
  {
    if b == [] {
      assert a + b == a;
    } else {
      assert (a + b)[..|a + b| - 1] == a + b[..|b| - 1];
      SumAppend(a, b[..|b| - 1]);
    }
  }

  lemma WholeOf<T>(s: seq<T>)
    ensures s[..0] == [] && s[..|s|] == s
  {
  }
}
