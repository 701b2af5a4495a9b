/** Shared vocabulary of the Verinode contracts: host identities, byte strings,
    failure-carrying results and the integer division the contracts' Rust code uses. */
module Common {

  /** A host account identity. Only equality matters to the contracts. */
  type Address = nat

  /** A host byte string (`Bytes`, `Binary`). */
  type Bytes = seq<bv8>

  /** A host string (`String`, `Symbol`), as a sequence of characters. */
  type Text = seq<char>

  datatype Option<T> = None | Some(value: T) {
    function GetOr(default: T): T {
      if Some? then value else default
    }
  }

  /** The value a call returns, or the reason it failed (a `panic!` or an `Err`). */
  datatype Result<T, E> = Ok(value: T) | Err(error: E)

  /** A call that returns nothing: it passes, or it fails with a reason. */
  datatype Outcome<E> = Pass | Fail(error: E)

  /** Rust's `/` on signed integers: the quotient rounded toward zero
      (Dafny's own `/` rounds toward negative infinity for a negative dividend). */
  function TruncDiv(a: int, b: int): (q: int)
    requires b > 0
    ensures a >= 0 ==> 0 <= q * b <= a < q * b + b
    ensures a < 0 ==> q * b - b < a <= q * b <= 0
  {
    if a >= 0 then
      DivBounds(a, b);
      a / b
    else
      DivBounds(-a, b);
      -((-a) / b)
  }

  /** Euclidean division of a non-negative dividend, as bounds on the quotient. */
  lemma DivBounds(a: int, b: int)
    requires a >= 0 && b > 0
    ensures 0 <= (a / b) * b <= a < (a / b) * b + b
  {
    var q, r := a / b, a % b;
    assert a == q * b + r && 0 <= r < b;
    assert q >= 0;
  }

  /** Truncating division is monotone in the dividend. */
  lemma TruncDivMonotone(a: int, c: int, b: int)
    requires b > 0 && a <= c
    ensures TruncDiv(a, b) <= TruncDiv(c, b)
  {
    var qa, qc := TruncDiv(a, b), TruncDiv(c, b);
    assert qa * b - qc * b < b;
    assert (qa - qc) * b == qa * b - qc * b;
    FactorBelowOne(qa - qc, b);
  }

  lemma FactorBelowOne(x: int, b: int)
    requires b > 0 && x * b < b
    ensures x < 1
  {
  }

  /** Integer minimum, as Rust's `i128::min`. */
  function Min(a: int, b: int): (m: int)
    ensures m <= a && m <= b
    ensures m == a || m == b
  {
    if a <= b then a else b
  }

  /** The entries stored under keys 1..n that `keep` accepts, in ascending key order:
      the scan `for i in 1..=count` over a counter-keyed store. */
  function ScanIds<P>(entries: map<nat, P>, n: nat, keep: P -> bool): seq<P> {
    if n == 0 then []
    else ScanIds(entries, n - 1, keep) + (if n in entries && keep(entries[n]) then [entries[n]] else [])
  }

  /** A scan returns accepted stored entries, among them every accepted entry under keys
      1..n; when every entry
      carries its own key as its id, their ids strictly ascend. */
  lemma {:induction false} ScanIdsExact<P>(entries: map<nat, P>, n: nat, keep: P -> bool, idOf: P -> nat)
    ensures var r := ScanIds(entries, n, keep);
      && (forall p :: p in r ==> p in entries.Values && keep(p))
      && (forall k :: 1 <= k <= n && k in entries && keep(entries[k]) ==> entries[k] in r)
    ensures (forall k :: k in entries ==> idOf(entries[k]) == k) ==>
      var r := ScanIds(entries, n, keep);
      && (forall p :: p in r ==> 1 <= idOf(p) <= n)
      && (forall i, j :: 0 <= i < j < |r| ==> idOf(r[i]) < idOf(r[j]))
  {
    if n > 0 {
      ScanIdsExact(entries, n - 1, keep, idOf);
    }
  }
}
