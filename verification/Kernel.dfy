/** Vocabulary shared by every module of the model. */
module Kernel {

  /** A nullable column, or an optional parameter. */
  datatype Option<+T> = None | Some(value: T)

  /** Row identifiers. `createId` draws them at random; only equality is ever used. */
  type Id = nat

  /** Epoch milliseconds. */
  type Time = int

  /** A token or password digest. Hashing is injective, so a digest stands for its secret. */
  type Hash = nat

  /** A normalized (trimmed, lower-cased) email address. */
  type Email = nat

  function Digit(n: nat): char
    requires n < 10
  {
    "0123456789"[n]
  }

  /** How a number is printed. */
  function Decimal(n: nat): string {
    if n < 10 then [Digit(n)] else Decimal(n / 10) + [Digit(n % 10)]
  }

  /** The smallest value of `f` is reached by some element of a non-empty finite set. */
  lemma {:induction false} LeastExists(s: set<Id>, f: Id -> int)
    requires s != {}
    ensures exists x :: x in s && forall y :: y in s ==> f(x) <= f(y)
    decreases s
  {
    var a :| a in s;
    var rest := s - {a};
    if rest != {} {
      LeastExists(rest, f);
      var b :| b in rest && forall y :: y in rest ==> f(b) <= f(y);
      var m := if f(a) <= f(b) then a else b;
      assert forall y :: y in s ==> y == a || y in rest;
      assert m in s && forall y :: y in s ==> f(m) <= f(y);
    } else {
      assert s == {a};
    }
  }
}
