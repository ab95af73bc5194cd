/**
 * Go's float32 arithmetic on whole numbers: a product of two float32 values is
 * rounded to the nearest value with 24 significant bits, ties to even.
 */
module Float32 {
  /** 2^24: a float32 carries 24 significant bits, so every whole number below it is exact. */
  const Significand: nat := 16777216

  /** The spacing of float32 values around `n`: 1 below 2^24, doubling with each power of two above. */
  function Ulp(n: nat): (u: nat)
    ensures u >= 1
    ensures n < Significand * u
    ensures u > 1 ==> Significand * u <= 2 * n
  {
    UlpFrom(n, 1)
  }

  /** Doubles the candidate spacing `u` until 2^24 of them cover `n`. */
  function UlpFrom(n: nat, u: nat): (v: nat)
    requires u >= 1 && (u == 1 || Significand * u <= 2 * n)
    ensures v >= u
    ensures n < Significand * v
    ensures v > 1 ==> Significand * v <= 2 * n
    decreases n - u
  {
    if n < Significand * u then u else UlpFrom(n, 2 * u)
  }

  /** Round to the nearest multiple of `u`, a tie going to the even multiple. */
  function RoundToMultiple(n: nat, u: nat): (m: nat)
    requires u >= 1
    ensures m == (n / u) * u || m == (n / u) * u + u
    ensures 2 * (if m >= n then m - n else n - m) <= u
    ensures 2 * (n % u) == u ==> (m == (n / u) * u <==> (n / u) % 2 == 0)
  {
    var q, r := n / u, n % u;
    assert n == q * u + r && 0 <= r < u;
    if 2 * r < u || (2 * r == u && q % 2 == 0) then n - r else n - r + u
  }

  /** A whole number as float32 rounds it: the error is at most 2^-24 of the number, and none below 2^24. */
  function ToFloat32(n: nat): (m: nat)
    ensures Significand * (if m >= n then m - n else n - m) <= n
    ensures n < Significand ==> m == n
  {
    RoundToMultiple(n, Ulp(n))
  }
}
