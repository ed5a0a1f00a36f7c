/**
 * The backend's credential pool: a fixed list of provider tokens and a
 * process-wide cursor that `rotateToken` advances modulo the list length.
 */
module TokenRotation {

  /** The cursor that follows `i` in a pool of `n` tokens. */
  function Next(i: nat, n: nat): (j: nat)
    requires n > 0
    ensures j < n
    ensures i < n ==> j == if i + 1 == n then 0 else i + 1
  {
    (i + 1) % n
  }

  /** The cursor after `k` rotations starting from `i`. */
  function Advance(i: nat, k: nat, n: nat): (j: nat)
    requires i < n
    ensures j < n
  {
    if k == 0 then i else Next(Advance(i, k - 1, n), n)
  }

  lemma {:induction false} MulAtLeast(d: nat, n: nat)
    requires d >= 1
    ensures d * n >= n
  {
    if d > 1 {
      MulAtLeast(d - 1, n);
      assert d * n == (d - 1) * n + n;
    }
  }

  /** Euclidean division has only one quotient and remainder. */
  lemma DivModUnique(a: nat, n: nat, q: nat, r: nat)
    requires 0 <= r < n && a == q * n + r
    ensures a % n == r
  {
    var q0: nat, r0: nat := a / n, a % n;
    assert a == q0 * n + r0;
    if q0 < q {
      var d: nat := q - q0;
      assert q * n == q0 * n + d * n;
      MulAtLeast(d, n);
    } else if q < q0 {
      var d: nat := q0 - q;
      assert q0 * n == q * n + d * n;
      MulAtLeast(d, n);
    }
  }

  /** Rotating from `a mod n` lands on `(a + 1) mod n`. */
  lemma NextOfMod(a: nat, n: nat)
    requires n > 0
    ensures Next(a % n, n) == (a + 1) % n
  {
    var q, r := a / n, a % n;
    if r + 1 == n {
      DivModUnique(a + 1, n, q + 1, 0);
    } else {
      DivModUnique(a + 1, n, q, r + 1);
    }
  }

  /** `k` rotations move the cursor `k` places forward, wrapping around. */
  lemma {:induction false} AdvanceIsModular(i: nat, k: nat, n: nat)
    requires i < n
    ensures Advance(i, k, n) == (i + k) % n
  {
    if k == 0 {
      DivModUnique(i, n, 0, i);
    } else {
      AdvanceIsModular(i, k - 1, n);
      NextOfMod(i + k - 1, n);
    }
  }

  /** Rotating as many times as there are tokens brings the cursor back. */
  lemma RotationIsCyclic(i: nat, n: nat)
    requires i < n
    ensures Advance(i, n, n) == i
  {
    AdvanceIsModular(i, n, n);
    DivModUnique(i + n, n, 1, i);
  }

  /** With more than one token, a rotation always selects a different token slot. */
  lemma NextDiffers(i: nat, n: nat)
    requires 1 < n && i < n
    ensures Next(i, n) != i
  {
  }

  class TokenPool {
    /** The configured tokens (`vercelTokens`); their values are opaque here. */
    const tokens: seq<string>
    /** `currentTokenIndex` */
    var index: nat
    /** How many times `RotateToken` has run; it lets contracts count rotations. */
    ghost var rotations: nat

    ghost predicate Valid()
      reads this
    {
      0 < |tokens| && index < |tokens|
    }

    /** The pool at process start: the cursor on the first token. */
    constructor (tokens: seq<string>)
      requires |tokens| > 0
      ensures Valid()
      ensures this.tokens == tokens && index == 0 && rotations == 0
    {
      this.tokens := tokens;
      index := 0;
      rotations := 0;
    }

    /** `getActiveToken`: the token under the cursor; changes nothing. */
    method GetActiveToken() returns (token: string)
      requires Valid()
      ensures token == tokens[index]
    {
      token := tokens[index];
    }

    /** `rotateToken`: advance the cursor and return the token it now points at. */
    method RotateToken() returns (token: string)
      requires Valid()
      modifies this
      ensures Valid()
      ensures index == Next(old(index), |tokens|)
      ensures token == tokens[index]
      ensures rotations == old(rotations) + 1
    {
      index := (index + 1) % |tokens|;
      rotations := rotations + 1;
      token := tokens[index];
    }
  }

  /** Reading the active token twice with no rotation between gives the same token. */
  method ReadActiveTwice(pool: TokenPool) returns (first: string, second: string)
    requires pool.Valid()
    ensures first == second == pool.tokens[pool.index]
  {
    first := pool.GetActiveToken();
    second := pool.GetActiveToken();
  }
}
