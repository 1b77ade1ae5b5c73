/** The few Python notions the other modules share: optional values, raised
    exceptions as results, and the conversions from a real number to an integer. */
module Python {

  datatype Option<+T> = None | Some(value: T)

  /** One constructor per exception class the modelled code can raise. */
  datatype Error = ValueError | TypeError | StructError | IndexError | KeyError | RuntimeError | IntegrityError

  datatype Result<+T> = Ok(value: T) | Err(error: Error) {
    predicate IsFailure() {
      Err?
    }

    function PropagateFailure<U>(): Result<U>
      requires Err?
    {
      Err(error)
    }

    function Extract(): T
      requires Ok?
    {
      value
    }
  }

  function Max(x: real, y: real): real {
    if x < y then y else x
  }

  function Min(x: real, y: real): real {
    if y < x then y else x
  }

  function Abs(x: real): real {
    if x < 0.0 then -x else x
  }

  /** int(x): the fractional part is dropped, towards zero. */
  function Truncate(x: real): (r: int)
    ensures 0.0 <= x ==> r as real <= x < r as real + 1.0
    ensures x < 0.0 ==> r as real - 1.0 < x <= r as real
  {
    if x < 0.0 then -((-x).Floor) else x.Floor
  }

  /** round(x): the nearest integer, a tie going to the even neighbour. */
  function Round(x: real): (r: int)
    ensures r as real - 0.5 <= x <= r as real + 0.5
  {
    var down := x.Floor;
    var fraction := x - down as real;
    if fraction < 0.5 || (fraction == 0.5 && down % 2 == 0) then down else down + 1
  }

  lemma RoundTie(n: int)
    ensures Round(n as real + 0.5) == if n % 2 == 0 then n else n + 1
  {
    assert (n as real + 0.5).Floor == n;
  }

  lemma TruncateMonotone(x: real, y: real)
    requires x <= y
    ensures Truncate(x) <= Truncate(y)
  {
  }

  lemma RoundMonotone(x: real, y: real)
    requires x <= y
    ensures Round(x) <= Round(y)
  {
    if x.Floor == y.Floor {
    } else {
      assert x.Floor + 1 <= y.Floor;
    }
  }

  lemma SomeMember<T>(s: set<T>) returns (x: T)
    requires s != {}
    ensures x in s
  {
    x :| x in s;
  }

  /** Python's ordering of strings: code point by code point, a prefix first. */
  predicate StringLe(a: string, b: string) {
    a == [] || (b != [] && (a[0] < b[0] || (a[0] == b[0] && StringLe(a[1..], b[1..]))))
  }

  /** The strings part at k, where a has the smaller character. */
  predicate Parts(a: string, b: string, k: nat) {
    k < |a| && k < |b| && a[..k] == b[..k] && a[k] < b[k]
  }

  lemma SameHead(a: string, b: string, k: nat)
    requires Parts(a, b, k)
    ensures k > 0 ==> a[0] == b[0]
  {
    if k > 0 {
      assert a[..k][0] == b[..k][0];
    }
  }

  lemma {:induction false} StringLeMeaning(a: string, b: string)
    ensures StringLe(a, b) <==> a <= b || exists k: nat :: Parts(a, b, k)
  {
    if a != [] && b != [] && a[0] == b[0] {
      StringLeMeaning(a[1..], b[1..]);
      assert a == [a[0]] + a[1..] && b == [b[0]] + b[1..];
      if k: nat :| Parts(a[1..], b[1..], k) {
        assert a[..k + 1] == [a[0]] + a[1..][..k] && b[..k + 1] == [b[0]] + b[1..][..k];
        assert Parts(a, b, k + 1);
      }
      if k: nat :| Parts(a, b, k) {
        assert k > 0;
        assert a[1..][..k - 1] == a[..k][1..] && b[1..][..k - 1] == b[..k][1..];
        assert Parts(a[1..], b[1..], k - 1);
      }
    } else if a != [] && b != [] {
      if a[0] < b[0] {
        assert Parts(a, b, 0);
      }
      if k: nat :| Parts(a, b, k) {
        SameHead(a, b, k);
      }
    }
  }

  lemma {:induction false} StringLeTotal(a: string, b: string)
    ensures StringLe(a, b) || StringLe(b, a)
    ensures StringLe(a, b) && StringLe(b, a) ==> a == b
  {
    if a != [] && b != [] && a[0] == b[0] {
      StringLeTotal(a[1..], b[1..]);
      assert a == [a[0]] + a[1..] && b == [b[0]] + b[1..];
    }
  }

  lemma {:induction false} StringLeTransitive(a: string, b: string, c: string)
    requires StringLe(a, b) && StringLe(b, c)
    ensures StringLe(a, c)
  {
    if a != [] && a[0] == b[0] && b[0] == c[0] {
      StringLeTransitive(a[1..], b[1..], c[1..]);
    }
  }
}
