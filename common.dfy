/** Values shared by the routes and components: optional values and the JavaScript
    notion of a "truthy" string, which the handlers use for `a || b` defaults and
    `if (!x)` validation. */
module Common {

  datatype Option<T> = None | Some(value: T)

  /** A JavaScript string value that may be absent; it is truthy when present and non-empty. */
  predicate Truthy(o: Option<string>)
  {
    o.Some? && o.value != ""
  }

  /** JavaScript `a || b` on two possibly absent strings. */
  function OrElse(a: Option<string>, b: Option<string>): (r: Option<string>)
    ensures Truthy(a) ==> r == a
    ensures !Truthy(a) ==> r == b
  {
    if Truthy(a) then a else b
  }

  /** JavaScript `a || d` where `d` is a non-empty literal default. */
  function OrDefault(a: Option<string>, d: string): (r: string)
    ensures Truthy(a) ==> r == a.value
    ensures !Truthy(a) ==> r == d
  {
    if Truthy(a) then a.value else d
  }

  predicate IsDigit(c: char)
  {
    '0' <= c <= '9'
  }

  predicate AllDigits(s: string)
  {
    forall i :: 0 <= i < |s| ==> IsDigit(s[i])
  }

  /** Decimal rendering of a natural number, as JavaScript's `String(n)` / `n.toString()`. */
  function DecimalString(n: nat): (r: string)
    ensures |r| >= 1 && AllDigits(r)
    decreases n
  {
    var last := ['0' + (n % 10) as char];
    if n < 10 then last else DecimalString(n / 10) + last
  }

  lemma {:induction false} DecimalStringInjective(m: nat, n: nat)
    requires DecimalString(m) == DecimalString(n)
    ensures m == n
    decreases m
  {
    var a, b := DecimalString(m), DecimalString(n);
    if m < 10 && n < 10 {
      assert a[0] == b[0];
    } else if m >= 10 && n >= 10 {
      var pm, pn := DecimalString(m / 10), DecimalString(n / 10);
      assert a[..|a| - 1] == pm && b[..|b| - 1] == pn;
      assert a[|a| - 1] == b[|b| - 1];
      DecimalStringInjective(m / 10, n / 10);
    }
  }
}
