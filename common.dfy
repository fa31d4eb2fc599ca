/** Shared vocabulary of the backend and the client: optional values, results
    carrying the service exceptions, JavaScript truthiness on optional strings,
    `Array.prototype.join`, decimal rendering of integers and the string ids
    that the stores generate. */
module Common {

  datatype Option<T> = None | Some(value: T)

  /** The exceptions the services throw: NestJS HTTP exceptions, the query
      failure the database raises on a unique-key violation, and the
      JavaScript TypeError of reading a property of a missing value. */
  datatype Error =
    | NotFound(message: string)
    | BadRequest(message: string)
    | Conflict(message: string)
    | Unauthorized(message: string)
    | QueryFailed(message: string)
    | TypeError(message: string)

  datatype Result<T> = Success(value: T) | Failure(error: Error)

  /** JavaScript truthiness of an optional string: `undefined`, `null` and `''` are falsy. */
  predicate Truthy(o: Option<string>)
  {
    o.Some? && o.value != ""
  }

  /** The JavaScript expression `o || d` on an optional string. */
  function OrElse(o: Option<string>, d: string): (r: string)
    ensures Truthy(o) ==> r == o.value
    ensures !Truthy(o) ==> r == d
  {
    if Truthy(o) then o.value else d
  }

  /** `parts.join(sep)`: the parts with one separator between neighbours. */
  function Join(parts: seq<string>, sep: string): string
  {
    if |parts| == 0 then ""
    else if |parts| == 1 then parts[0]
    else parts[0] + sep + Join(parts[1..], sep)
  }

  /** Joining one more part at the end appends a separator and that part. */
  lemma {:induction false} JoinSnoc(parts: seq<string>, x: string, sep: string)
    requires |parts| > 0
    ensures Join(parts + [x], sep) == Join(parts, sep) + sep + x
  {
    if |parts| == 1 {
      assert (parts + [x])[1..] == [x];
    } else {
      assert (parts + [x])[1..] == parts[1..] + [x];
      JoinSnoc(parts[1..], x, sep);
    }
  }

  function DigitChar(d: nat): (c: char)
    requires d < 10
    ensures '0' <= c <= '9'
  {
    (48 + d) as char
  }

  /** Decimal rendering of a natural number, as `String(n)` produces it. */
  function NatToString(n: nat): (s: string)
    ensures |s| >= 1
    ensures forall i :: 0 <= i < |s| ==> '0' <= s[i] <= '9'
    decreases n
  {
    if n < 10 then [DigitChar(n)] else NatToString(n / 10) + [DigitChar(n % 10)]
  }

  /** Decimal rendering of an integer, with a leading `-` when it is negative. */
  function IntToString(i: int): string
  {
    if i < 0 then "-" + NatToString(-i) else NatToString(i)
  }

  lemma NatToStringLong(n: nat)
    requires n >= 10
    ensures |NatToString(n)| >= 2
  {
  }

  /** Distinct numbers have distinct renderings. */
  lemma {:induction false} NatToStringInjective(a: nat, b: nat)
    requires NatToString(a) == NatToString(b)
    ensures a == b
    decreases a
  {
    if a < 10 && b < 10 {
      assert NatToString(a)[0] == DigitChar(a);
    } else if a < 10 {
      NatToStringLong(b);
    } else if b < 10 {
      NatToStringLong(a);
    } else {
      var sa, sb := NatToString(a), NatToString(b);
      assert sa[|sa| - 1] == DigitChar(a % 10);
      assert sb[|sb| - 1] == DigitChar(b % 10);
      assert sa[..|sa| - 1] == NatToString(a / 10);
      assert sb[..|sb| - 1] == NatToString(b / 10);
      NatToStringInjective(a / 10, b / 10);
    }
  }

  /** The n-th id a store hands out (the repositories generate uuids; a
      counter rendered in decimal is a generator whose ids never repeat). */
  function IdOf(n: nat): (id: string)
    ensures id != ""
  {
    NatToString(n)
  }

  /** The ids handed out before the n-th. */
  ghost function IdSet(n: nat): set<string>
  {
    if n == 0 then {} else IdSet(n - 1) + {IdOf(n - 1)}
  }

  /** The n-th id is not among the earlier ones: a counter never reuses an id. */
  lemma {:induction false} IdOfFresh(n: nat, m: nat)
    requires m <= n
    ensures IdOf(n) !in IdSet(m)
  {
    if m > 0 {
      IdOfFresh(n, m - 1);
      if IdOf(n) == IdOf(m - 1) {
        NatToStringInjective(n, m - 1);
      }
    }
  }

  /** No id handed out is empty. */
  lemma {:induction false} IdSetNonEmpty(n: nat, id: string)
    requires id in IdSet(n)
    ensures id != ""
  {
    if id != IdOf(n - 1) {
      IdSetNonEmpty(n - 1, id);
    }
  }

  /** The ids in m among the first n, in the order they were handed out. */
  function KeysBelow<V>(m: map<string, V>, n: nat): (ks: seq<string>)
    ensures forall id :: id in ks ==> id in m && id in IdSet(n)
    ensures forall id :: id in m && id in IdSet(n) ==> id in ks
    ensures forall i, j :: 0 <= i < j < |ks| ==> ks[i] != ks[j]
  {
    if n == 0 then []
    else
      var prev := KeysBelow(m, n - 1);
      IdOfFresh(n - 1, n - 1);
      if IdOf(n - 1) in m then prev + [IdOf(n - 1)] else prev
  }
}
