/** Building the arrays that the chart code sorts in place. */
module Arrays {
  /** `Array.from(s)`: a new array holding `s`. */
  method ToArray<T>(s: seq<T>) returns (a: array<T>)
    ensures fresh(a)
    ensures a[..] == s
  {
    a := new T[|s|](i requires 0 <= i < |s| => s[i]);
  }
}
