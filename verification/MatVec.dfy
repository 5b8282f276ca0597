// The matrix-vector circuit with signed integer coefficients.
module MatVec {
  import opened Field
  import opened Circuit

  const HALF32: int := 0x8000_0000

  /** Negation of a 32-bit integer, which wraps around for the least one. */
  function Negate32(value: int): (r: int)
    requires -HALF32 <= value < HALF32
    ensures -HALF32 <= r < HALF32
  {
    if value == -HALF32 then value else -value
  }

  /** The cast from a signed to an unsigned 32-bit integer. */
  function AsUnsigned32(value: int): (r: nat)
    requires -HALF32 <= value < HALF32
    ensures r < 2 * HALF32
  {
    value % (2 * HALF32)
  }

  /**
   * `to_field`; for the least 32-bit integer the wrapped negation is cast to the number that is wanted all the same.
   */
  function ToField(value: int): (r: Fp)
    requires -HALF32 <= value < HALF32
    ensures r == value % P
  {
    if value >= 0 then AsUnsigned32(value) else Sub(0, AsUnsigned32(Negate32(value)))
  }

  /** The inner product over the integers. */
  function InnerProduct(c: seq<int>, x: seq<int>): int
    requires |c| == |x|
  {
    if c == [] then 0 else InnerProduct(c[..|c| - 1], x[..|x| - 1]) + c[|c| - 1] * x[|x| - 1]
  }

  function WireValues(w: Assignment, input: seq<Wire>): (r: seq<int>)
    ensures |r| == |input|
  {
    seq(|input|, i requires 0 <= i < |input| => w(input[i]))
  }

  /** One step of the accumulation, over the field. */
  lemma Accumulate(c: seq<int>, x: seq<int>, i: nat, sum: Fp, value: Fp)
    requires |c| == |x| && i < |c| && -HALF32 <= c[i] < HALF32 && x[i] == value
    requires sum == InnerProduct(c[..i], x[..i]) % P
    ensures Add(Mul(ToField(c[i]), value), sum) == InnerProduct(c[..i + 1], x[..i + 1]) % P
  {
    assert c[..i + 1][..i] == c[..i] && x[..i + 1][..i] == x[..i];
    ModMulLeft(c[i], value);
    ModAddSub(c[i] * value, InnerProduct(c[..i], x[..i]));
  }

  /** In every model the wire carries the inner product of the coefficients and the inputs, modulo P. */
  ghost predicate CarriesProduct(models: iset<Assignment>, c: seq<int>, input: seq<Wire>, t: Wire)
    requires |c| == |input|
  {
    forall w: Assignment :: w in models ==> w(t) == InnerProduct(c, WireValues(w, input)) % P
  }

  predicate Coefficients(c: seq<int>)
  {
    forall i :: 0 <= i < |c| ==> -HALF32 <= c[i] < HALF32
  }

  /** `dot`; it fails exactly when the lengths differ. */
  method Dot(builder: CircuitBuilder, c: seq<int>, input: seq<Wire>) returns (ok: bool, sum: Wire)
    requires builder.Valid() && Coefficients(c) && forall i :: 0 <= i < |input| ==> input[i] < builder.wires
    modifies builder
    ensures builder.Grown() && (ok <==> |c| == |input|)
    ensures ok ==> sum < builder.wires && CarriesProduct(builder.models, c, input, sum)
  {
    ok, sum := |c| == |input|, 0;
    if !ok {
      return;
    }
    sum := builder.NewConstant(0);
    for i: nat := 0 to |c|
      invariant builder.Grown() && sum < builder.wires
      invariant forall w: Assignment :: w in builder.models ==>
                w(sum) == InnerProduct(c[..i], WireValues(w, input)[..i]) % P
    {
      var next := builder.ScalePlus(ToField(c[i]), input[i], sum);
      forall w: Assignment | w in builder.models
        ensures w(next) == InnerProduct(c[..i + 1], WireValues(w, input)[..i + 1]) % P
      {
        Accumulate(c, WireValues(w, input), i, w(sum), w(input[i]));
      }
      sum := next;
    }
    forall w: Assignment | w in builder.models
      ensures w(sum) == InnerProduct(c, WireValues(w, input)) % P
    {
      assert c[..|c|] == c && WireValues(w, input)[..|c|] == WireValues(w, input);
    }
  }

  /** The rows of a matrix given row by row. */
  function Rows(c: seq<int>, n: nat): seq<seq<int>>
    requires n > 0
  {
    if |c| < n then [] else [c[..n]] + Rows(c[n..], n)
  }

  lemma {:induction false} RowsShape(c: seq<int>, n: nat)
    requires n > 0 && Coefficients(c)
    ensures forall r :: 0 <= r < |Rows(c, n)| ==> |Rows(c, n)[r]| == n && Coefficients(Rows(c, n)[r])
    decreases |c|
  {
    if |c| >= n {
      RowsShape(c[n..], n);
    }
  }

  /** Row r begins at element r * n. */
  lemma {:induction false} RowAt(c: seq<int>, n: nat, r: nat, count: nat)
    requires n > 0 && |c| == count * n && r < count
    ensures |Rows(c, n)| == count && r * n + n <= |c| && Rows(c, n)[r] == c[r * n..r * n + n]
    decreases count
  {
    assert count * n == (count - 1) * n + n && (count - 1) * n >= 0;
    if count == 1 {
      assert Rows(c[n..], n) == [];
    } else {
      RowAt(c[n..], n, if r == 0 then 0 else r - 1, count - 1);
      if r > 0 {
        assert r * n == (r - 1) * n + n;
        assert c[n..][(r - 1) * n..(r - 1) * n + n] == c[r * n..r * n + n];
      }
    }
  }

  /** Every output wire carries its row of the product. */
  ghost predicate CarriesRows(builder: CircuitBuilder, rows: seq<seq<int>>, input: seq<Wire>, output: seq<Wire>)
    reads builder
  {
    && |output| <= |rows|
    && forall r :: 0 <= r < |output| ==>
         |rows[r]| == |input| && output[r] < builder.wires && CarriesProduct(builder.models, rows[r], input, output[r])
  }

  /**
   * `full`: the product with the matrix, for every shape; it fails without inputs or when the last row is incomplete.
   */
  method Full(builder: CircuitBuilder, c: seq<int>, input: seq<Wire>) returns (ok: bool, output: seq<Wire>)
    requires builder.Valid() && Coefficients(c) && forall i :: 0 <= i < |input| ==> input[i] < builder.wires
    modifies builder
    ensures builder.Grown() && (ok <==> |input| > 0 && |c| == |input| * (|c| / |input|))
    ensures ok ==> |output| == |Rows(c, |input|)| && CarriesRows(builder, Rows(c, |input|), input, output)
  {
    output := [];
    ok := |input| > 0 && |c| == |input| * (|c| / |input|);
    if !ok {
      return;
    }
    var rest := c;
    ghost var rows := Rows(c, |input|);
    while |rest| >= |input|
      invariant builder.Grown() && Coefficients(rest)
      invariant |output| <= |rows| && rows[|output|..] == Rows(rest, |input|) &&
                CarriesRows(builder, rows, input, output)
      decreases |rest|
    {
      var done, sum := Dot(builder, rest[..|input|], input);
      assert rows[|output|..][0] == rows[|output|] == rest[..|input|];
      assert rows[|output|..][1..] == rows[|output| + 1..];
      output := output + [sum];
      rest := rest[|input|..];
    }
  }

  // ---- Reading the result as a signed integer ----

  /** The representative of a residue nearest to zero. */
  function Signed(x: Fp): int
  {
    if x <= (P - 1) / 2 then x else x - P
  }

  lemma SignedOf(s: int)
    requires -((P - 1) / 2) <= s <= (P - 1) / 2
    ensures Signed(s % P) == s
  {
    if s >= 0 {
      ModUnique(s, 0, s);
    } else {
      ModUnique(s, -1, s + P);
    }
  }

  ghost predicate Bounded(x: seq<int>, bound: int)
  {
    forall i :: 0 <= i < |x| ==> -bound <= x[i] <= bound
  }

  lemma ProductBounded(a: int, b: int, m: int, n: int)
    requires -m <= a <= m && -n <= b <= n
    ensures -(m * n) <= a * b <= m * n
  {
    assert (m - a) * (n + b) >= 0 && (m + a) * (n - b) >= 0;
    assert (m - a) * (n - b) >= 0 && (m + a) * (n + b) >= 0;
    assert (m - a) * (n + b) == m * n + m * b - a * n - a * b;
    assert (m + a) * (n - b) == m * n - m * b + a * n - a * b;
    assert (m - a) * (n - b) == m * n - m * b - a * n + a * b;
    assert (m + a) * (n + b) == m * n + m * b + a * n + a * b;
  }

  lemma {:induction false} InnerProductBounded(c: seq<int>, x: seq<int>, m: int, n: int)
    requires |c| == |x| && Bounded(c, m) && Bounded(x, n)
    ensures -(|c| * (m * n)) <= InnerProduct(c, x) <= |c| * (m * n)
  {
    if c != [] {
      InnerProductBounded(c[..|c| - 1], x[..|x| - 1], m, n);
      ProductBounded(c[|c| - 1], x[|x| - 1], m, n);
      assert |c| * (m * n) == (|c| - 1) * (m * n) + m * n;
    }
  }

  /** Inputs that stand for the integers `x` give the residue of the integer inner product. */
  lemma {:induction false} InnerProductOfResidues(c: seq<int>, x: seq<int>, v: seq<int>)
    requires |c| == |x| == |v| && forall i :: 0 <= i < |x| ==> v[i] == x[i] % P
    ensures InnerProduct(c, v) % P == InnerProduct(c, x) % P
  {
    if c != [] {
      var k := |c| - 1;
      InnerProductOfResidues(c[..k], x[..k], v[..k]);
      ModMulLeft(x[k], c[k]);
      assert x[k] % P * c[k] == c[k] * v[k] && x[k] * c[k] == c[k] * x[k];
      ModAddSub(InnerProduct(c[..k], v[..k]), c[k] * v[k]);
      ModAddSub(InnerProduct(c[..k], x[..k]), c[k] * x[k]);
    }
  }

  /**
   * With |x| inputs below 2^31 and coefficients of at most `bound` in absolute value, where |x| * bound * 2^31 does not
   * exceed (P - 1) / 2, the signed result is recovered from the output wire.
   */
  lemma ResultRecovered(c: seq<int>, x: seq<int>, v: seq<int>, bound: nat)
    requires |c| == |x| == |v| && Bounded(c, bound) && Bounded(x, HALF32)
    requires forall i :: 0 <= i < |x| ==> v[i] == x[i] % P
    requires |c| * (bound * HALF32) <= (P - 1) / 2
    ensures Signed(InnerProduct(c, v) % P) == InnerProduct(c, x)
  {
    InnerProductOfResidues(c, x, v);
    InnerProductBounded(c, x, bound, HALF32);
    SignedOf(InnerProduct(c, x));
  }
}
