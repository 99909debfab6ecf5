/**
 The outcome of an operation of the commissioner library: a value, one of the
 error codes it returns, or the process abort that `VerifyOrDie` performs when a
 self-check fails.
 */
module Outcomes {

  datatype ErrorCode = InvalidArgs | BadFormat | NotFound | InvalidState

  datatype Outcome<+T> = Ok(value: T) | Err(error: ErrorCode) | Aborted {

    predicate IsFailure() {
      !Ok?
    }

    function PropagateFailure<U>(): Outcome<U>
      requires IsFailure()
    {
      match this
      case Err(e) => Err(e)
      case Aborted => Aborted
    }

    function Extract(): T
      requires !IsFailure()
    {
      value
    }
  }

  datatype Option<+T> = None | Some(value: T)

  /** What `o` yields, appended to `s`. */
  function After<T>(s: seq<T>, o: Outcome<seq<T>>): Outcome<seq<T>> {
    if o.Ok? then Ok(s + o.value) else o
  }

  lemma AfterNothing<T>(s: seq<T>, o: Outcome<seq<T>>)
    ensures After([], o) == o && After(s, Ok([])) == Ok(s)
  {
    if o.Ok? {
      assert [] + o.value == o.value;
    }
    assert s + [] == s;
  }

  lemma AfterAfter<T>(a: seq<T>, b: seq<T>, o: Outcome<seq<T>>)
    ensures After(a, After(b, o)) == After(a + b, o)
  {
    if o.Ok? {
      assert a + (b + o.value) == a + b + o.value;
    }
  }

  /** A sequence without its element `i`, in terms of its first element and the rest. */
  lemma SpliceOut<T>(s: seq<T>, i: nat)
    requires 0 < i < |s|
    ensures [s[0]] + (s[1..][..i - 1] + s[1..][i..]) == s[..i] + s[i + 1..]
  {
    assert s[1..][..i - 1] == s[1..i] && s[1..][i..] == s[i + 1..];
    assert [s[0]] + s[1..i] == s[..i];
    assert [s[0]] + (s[1..i] + s[i + 1..]) == [s[0]] + s[1..i] + s[i + 1..];
  }

  /** A sequence with `x` before its element `i`, likewise. */
  lemma SpliceIn<T>(s: seq<T>, x: T, i: nat)
    requires 0 < i <= |s|
    ensures [s[0]] + (s[1..][..i - 1] + [x] + s[1..][i - 1..]) == s[..i] + [x] + s[i..]
  {
    assert s[1..][..i - 1] == s[1..i] && s[1..][i - 1..] == s[i..];
    assert [s[0]] + s[1..i] == s[..i];
    assert [s[0]] + (s[1..i] + [x] + s[i..]) == [s[0]] + s[1..i] + [x] + s[i..];
  }

  lemma HeadAndTail<T>(s: seq<T>)
    requires s != []
    ensures [s[0]] + s[1..] == s
  {
  }

  lemma NothingBefore<T>(s: seq<T>)
    ensures s[..0] + s == s && s[..0] == [] && s[0..] == s
  {
  }
}
