/** What several modules need. */
module Basics {

  datatype Maybe<+T> = None | Some(value: T)

  function Min(a: real, b: real): real {
    if b < a then b else a
  }

  ghost function Any<T>(s: set<T>): (t: T)
    requires s != {}
    ensures t in s
  {
    var t :| t in s; t
  }

  lemma Reassociate<T>(a: seq<T>, b: seq<T>, c: seq<T>)
    ensures a + b + c == a + (b + c)
  {
  }

  lemma LastOfSum<T>(a: seq<T>, b: seq<T>)
    requires b != []
    ensures var n := |b| - 1; (a + b)[..|a + b| - 1] == a + b[..n] && (a + b)[|a + b| - 1] == b[n]
  {
  }
}
