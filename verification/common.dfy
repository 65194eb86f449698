/**
 * Shared vocabulary of the rental backend model: optional values, the
 * success/failure result every service operation returns, the HTTP
 * exception kinds NestJS turns into responses, time constants in
 * milliseconds, ceiling division, decimal text of numbers, and order-keeping
 * filtering of table rows.
 */
module Common {

  datatype Option<+T> = None | Some(value: T)

  /** The HTTP exceptions the services throw, with the message they carry. */
  datatype Failure =
    | BadRequest(message: string)
    | Unauthorized(message: string)
    | Forbidden(message: string)
    | NotFound(message: string)
    | Conflict(message: string)
    | TooManyRequests(waitSeconds: int)
    | InternalError(message: string)

  /** A service call either returns a value or throws one of the exceptions above. */
  datatype Result<+T> = Ok(value: T) | Err(error: Failure)

  /** The HTTP status code of each exception kind. */
  function Status(f: Failure): (code: int)
    ensures 400 <= code <= 500
    ensures code == 429 <==> f.TooManyRequests?
  {
    match f
    case BadRequest(_) => 400
    case Unauthorized(_) => 401
    case Forbidden(_) => 403
    case NotFound(_) => 404
    case Conflict(_) => 409
    case TooManyRequests(_) => 429
    case InternalError(_) => 500
  }

  // Messages shared by several services (src/common/constants/messages.ts).
  const UserNotFound := "User not found"
  const VehicleNotFound := "Vehicle not found"
  const BookingNotFound := "Booking not found"
  /** The body of the 500 response for an exception that is not an HTTP exception. */
  const UnexpectedError := "An unexpected error occurred. Please try again later."

  // Time is an integer count of milliseconds since the epoch.
  const SecondMs: int := 1000
  const MinuteMs: int := 60 * 1000
  const HourMs: int := 60 * 60 * 1000
  const DayMs: int := 1000 * 60 * 60 * 24

  /** Prisma leaves a column unchanged when the update data holds `undefined` for it. */
  function Keep<T>(given: Option<T>, current: Option<T>): (r: Option<T>)
    ensures given.Some? ==> r == given
    ensures given.None? ==> r == current
  {
    if given.Some? then given else current
  }

  /** `Math.ceil(a / b)` for a positive divisor, on exact integers. */
  function CeilDiv(a: int, b: int): (q: int)
    requires b > 0
    ensures (q - 1) * b < a <= q * b
  {
    var f := (-a) / b;
    assert f * b <= -a < f * b + b;
    -f
  }

  lemma {:induction false} CeilDivMonotone(a: int, c: int, b: int)
    requires b > 0 && a <= c
    ensures CeilDiv(a, b) <= CeilDiv(c, b)
  {
    var qa, qc := CeilDiv(a, b), CeilDiv(c, b);
    if qa > qc {
      assert (qa - 1) * b >= qc * b by {
        assert qa - 1 >= qc;
        MulMonotone(qc, qa - 1, b);
      }
    }
  }

  lemma {:induction false} MulMonotone(x: int, y: int, b: int)
    requires x <= y && b > 0
    ensures x * b <= y * b
  {
    assert y * b - x * b == (y - x) * b;
  }

  // ---------------------------------------------------------------------
  // Decimal text of numbers (`Number.prototype.toString()` and `parseInt`)
  // ---------------------------------------------------------------------

  predicate IsDigit(c: char) { '0' <= c <= '9' }

  predicate AllDigits(s: string) { forall i :: 0 <= i < |s| ==> IsDigit(s[i]) }

  function DigitChar(d: nat): (c: char)
    requires d < 10
    ensures IsDigit(c)
  {
    (48 + d) as char
  }

  function DigitValue(c: char): (d: nat)
    requires IsDigit(c)
    ensures d < 10 && DigitChar(d) == c
  {
    (c as int - 48) as nat
  }

  /** The decimal text of a natural number, without leading zeros. */
  function ShowNat(n: nat): (s: string)
    ensures |s| >= 1 && AllDigits(s)
    ensures n >= 10 ==> s[0] != '0'
    ensures n < 10 ==> s == [DigitChar(n)]
  {
    if n < 10 then [DigitChar(n)] else ShowNat(n / 10) + [DigitChar(n % 10)]
  }

  /** The value of a string of decimal digits (leading zeros allowed). */
  function ParseNat(s: string): (n: nat)
    requires AllDigits(s)
  {
    if s == [] then 0 else ParseNat(s[..|s| - 1]) * 10 + DigitValue(s[|s| - 1])
  }

  lemma {:induction false} ParseShow(n: nat)
    ensures ParseNat(ShowNat(n)) == n
  {
    if n >= 10 {
      var s := ShowNat(n);
      assert s[..|s| - 1] == ShowNat(n / 10);
      ParseShow(n / 10);
    }
  }

  function Pow10(k: nat): (p: nat)
    ensures p >= 1
  {
    if k == 0 then 1 else 10 * Pow10(k - 1)
  }

  /** A number with exactly k digits prints as exactly k characters. */
  lemma {:induction false} ShowNatLength(n: nat, k: nat)
    requires k >= 1 && Pow10(k - 1) <= n < Pow10(k)
    ensures |ShowNat(n)| == k
  {
    if k > 1 {
      assert Pow10(k - 2) <= n / 10 < Pow10(k - 1);
      ShowNatLength(n / 10, k - 1);
    }
  }

  // ---------------------------------------------------------------------
  // Rows selected by a `where` clause, in table order
  // ---------------------------------------------------------------------

  function Filter<T(!new)>(s: seq<T>, p: T -> bool): (r: seq<T>)
    ensures |r| <= |s|
    ensures forall x :: x in r <==> x in s && p(x)
  {
    if s == [] then []
    else
      var rest := Filter(s[..|s| - 1], p);
      assert forall x :: x in s <==> x in s[..|s| - 1] || x == s[|s| - 1];
      if p(s[|s| - 1]) then rest + [s[|s| - 1]] else rest
  }

  function Reverse<T(!new)>(s: seq<T>): (r: seq<T>)
    ensures |r| == |s|
    ensures forall i :: 0 <= i < |s| ==> r[i] == s[|s| - 1 - i]
    ensures forall x :: x in r <==> x in s
  {
    if s == [] then [] else [s[|s| - 1]] + Reverse(s[..|s| - 1])
  }

  ghost predicate Increasing<T>(s: seq<T>, key: T -> int) {
    forall i, j :: 0 <= i < j < |s| ==> key(s[i]) < key(s[j])
  }

  ghost predicate Decreasing<T>(s: seq<T>, key: T -> int) {
    forall i, j :: 0 <= i < j < |s| ==> key(s[i]) > key(s[j])
  }

  /** Selecting rows keeps their relative order. */
  lemma {:induction false} FilterKeepsOrder<T(!new)>(s: seq<T>, p: T -> bool, key: T -> int)
    requires Increasing(s, key)
    ensures Increasing(Filter(s, p), key)
  {
    if s != [] {
      var init := s[..|s| - 1];
      assert Increasing(init, key);
      FilterKeepsOrder(init, p, key);
      var rest := Filter(init, p);
      if p(s[|s| - 1]) {
        forall x | x in rest ensures key(x) < key(s[|s| - 1]) {
          var i :| 0 <= i < |init| && init[i] == x;
        }
      }
    }
  }

  /** Reading an increasing table backwards gives newest-first order. */
  lemma {:induction false} NewestFirst<T(!new)>(s: seq<T>, p: T -> bool, key: T -> int)
    requires Increasing(s, key)
    ensures Decreasing(Reverse(Filter(s, p)), key)
  {
    FilterKeepsOrder(s, p, key);
  }

  /** The ids (positions) of the rows a `where` clause selects, oldest first. */
  function Positions<T>(s: seq<T>, p: T -> bool): (r: seq<nat>)
    ensures forall i :: i in r <==> 0 <= i < |s| && p(s[i])
    ensures forall a, b :: 0 <= a < b < |r| ==> r[a] < r[b]
  {
    if s == [] then []
    else
      var rest := Positions(s[..|s| - 1], p);
      assert forall k :: 0 <= k < |rest| ==> rest[k] in rest && rest[k] < |s| - 1;
      if p(s[|s| - 1]) then rest + [|s| - 1] else rest
  }

  /** The same selection, newest first (`orderBy: { createdAt: 'desc' }`). */
  function LatestFirst<T>(s: seq<T>, p: T -> bool): (r: seq<nat>)
    ensures forall i :: i in r <==> 0 <= i < |s| && p(s[i])
    ensures forall a, b :: 0 <= a < b < |r| ==> r[a] > r[b]
  {
    Reverse(Positions(s, p))
  }

  /** Two rows a filter keeps appear in the source in the same order. */
  lemma {:induction false} FilterPairs<T(!new)>(s: seq<T>, p: T -> bool, i: nat, j: nat)
    requires i < j < |Filter(s, p)|
    ensures exists a, b :: 0 <= a < b < |s| && s[a] == Filter(s, p)[i] && s[b] == Filter(s, p)[j]
  {
    var init := s[..|s| - 1];
    var rest := Filter(init, p);
    if j < |rest| {
      FilterPairs(init, p, i, j);
      var a, b :| 0 <= a < b < |init| && init[a] == rest[i] && init[b] == rest[j];
      assert s[a] == init[a] && s[b] == init[b];
    } else {
      assert rest[i] in init;
      var a :| 0 <= a < |init| && init[a] == rest[i];
      assert s[a] == init[a];
    }
  }
}
