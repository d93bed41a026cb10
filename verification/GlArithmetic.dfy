/** Arithmetic on scalars, vectors and matrices as HLSL and GLSL do it, over the reals, and the operands on which
    they differ (libobs-opengl/gl-shaderparser.c:246-314): mul and * on vectors and matrices, fmod and mod on
    negative quotients, comparisons, subscripts and constructors. */
module GlArithmetic {
  import opened Tokens
  import opened Expressions
  import opened GlStream
  import opened Options
  import opened GlTranslation
  import opened GlMeaning
  import opened GlReadings

  /** Handles are textures and samplers; Undefined is what a language does not allow. */
  datatype Value = Scalar(r: real) | Vec(rs: seq<real>) | Mat(rows: seq<seq<real>>) | Handle(name: string) | Undefined

  function ShapeOf(v: Value): Shape {
    match v
    case Vec(_) => Shape.Vector
    case Mat(_) => Shape.Matrix
    case _ => Single
  }

  // ---- by component ----

  function Truth(b: bool): real {
    if b then 1.0 else 0.0
  }

  predicate Computed(op: BinaryOp) {
    op !in {Modulo, ShiftLeft, ShiftRight, BitAnd, BitXor, BitOr}
  }

  function Operate(op: BinaryOp, x: real, y: real): real
    requires Computed(op)
  {
    match op
    case Times => x * y
    case Divide => if y == 0.0 then 0.0 else x / y
    case Plus => x + y
    case Minus => x - y
    case Less => Truth(x < y)
    case Greater => Truth(x > y)
    case LessEqual => Truth(x <= y)
    case GreaterEqual => Truth(x >= y)
    case Equal => Truth(x == y)
    case NotEqual => Truth(x != y)
    case And => Truth(x != 0.0 && y != 0.0)
    case Or => Truth(x != 0.0 || y != 0.0)
  }

  function Zip(op: BinaryOp, a: seq<real>, b: seq<real>): (r: seq<real>)
    requires Computed(op) && |a| == |b|
    ensures |r| == |a|
  {
    seq(|a|, i requires 0 <= i < |a| => Operate(op, a[i], b[i]))
  }

  function Repeat(x: real, n: nat): (r: seq<real>)
    ensures |r| == n && forall i :: 0 <= i < n ==> r[i] == x
  {
    seq(n, i => x)
  }

  predicate SameSize(a: seq<seq<real>>, b: seq<seq<real>>) {
    |a| == |b| && forall i :: 0 <= i < |a| ==> |a[i]| == |b[i]|
  }

  function ZipRows(op: BinaryOp, a: seq<seq<real>>, b: seq<seq<real>>): (r: seq<seq<real>>)
    requires Computed(op) && SameSize(a, b)
    ensures |r| == |a|
  {
    seq(|a|, i requires 0 <= i < |a| => Zip(op, a[i], b[i]))
  }

  function RepeatRows(x: real, m: seq<seq<real>>): (r: seq<seq<real>>)
    ensures SameSize(r, m)
  {
    seq(|m|, i requires 0 <= i < |m| => Repeat(x, |m[i]|))
  }

  /** HLSL's operators: component by component, a scalar standing for as many as there are. */
  function Componentwise(op: BinaryOp, a: Value, b: Value): Value
    requires Computed(op)
  {
    match (a, b)
    case (Scalar(x), Scalar(y)) => Scalar(Operate(op, x, y))
    case (Scalar(x), Vec(v)) => Vec(Zip(op, Repeat(x, |v|), v))
    case (Vec(v), Scalar(y)) => Vec(Zip(op, v, Repeat(y, |v|)))
    case (Vec(v), Vec(w)) => if |v| == |w| then Vec(Zip(op, v, w)) else Undefined
    case (Scalar(x), Mat(m)) => Mat(ZipRows(op, RepeatRows(x, m), m))
    case (Mat(m), Scalar(y)) => Mat(ZipRows(op, m, RepeatRows(y, m)))
    case (Mat(m), Mat(n)) => if SameSize(m, n) then Mat(ZipRows(op, m, n)) else Undefined
    case _ => Undefined
  }

  // ---- products ----

  function Dot(a: seq<real>, b: seq<real>): real
    requires |a| == |b|
  {
    if a == [] then 0.0 else a[0] * b[0] + Dot(a[1..], b[1..])
  }

  /** A matrix of r rows and c columns. */
  predicate IsSize(m: seq<seq<real>>, r: nat, c: nat) {
    |m| == r && forall i :: 0 <= i < r ==> |m[i]| == c
  }

  function Width(m: seq<seq<real>>): nat {
    if m == [] then 0 else |m[0]|
  }

  function Column(m: seq<seq<real>>, j: nat): (v: seq<real>)
    requires IsSize(m, |m|, Width(m)) && j < Width(m)
    ensures |v| == |m|
  {
    seq(|m|, i requires 0 <= i < |m| => m[i][j])
  }

  function RowTimes(v: seq<real>, m: seq<seq<real>>): (r: seq<real>)
    requires IsSize(m, |m|, Width(m)) && |v| == |m|
    ensures |r| == Width(m)
  {
    seq(Width(m), j requires 0 <= j < Width(m) => Dot(v, Column(m, j)))
  }

  /** The products of linear algebra with a matrix in them. */
  function Linear(a: Value, b: Value): Value {
    match (a, b)
    case (Vec(v), Mat(m)) => if IsSize(m, |v|, Width(m)) then Vec(RowTimes(v, m)) else Undefined
    case (Mat(m), Vec(v)) =>
      if IsSize(m, |m|, |v|) then Vec(seq(|m|, i requires 0 <= i < |m| => Dot(m[i], v))) else Undefined
    case (Mat(m), Mat(n)) =>
      if IsSize(n, |n|, Width(n)) && IsSize(m, |m|, |n|)
      then Mat(seq(|m|, i requires 0 <= i < |m| => RowTimes(m[i], n)))
      else Undefined
    case _ => Undefined
  }

  function HlslMul(a: Value, b: Value): Value {
    if ShapeOf(a).Single? || ShapeOf(b).Single? then Componentwise(Times, a, b)
    else if a.Vec? && b.Vec? then if |a.rs| == |b.rs| then Scalar(Dot(a.rs, b.rs)) else Undefined
    else Linear(a, b)
  }

  function GlslTimes(a: Value, b: Value): Value {
    if OperatorAlike(Times, ShapeOf(a), ShapeOf(b)) then Componentwise(Times, a, b) else Linear(a, b)
  }

  /** mul against GLSL's *, for scalars, vectors and matrices: they differ on any two vectors, and only there. */
  lemma {:induction false} MulExact(a: Value, b: Value)
    ensures HlslMul(a, b) == GlslTimes(a, b) <==> !(a.Vec? && b.Vec? && |a.rs| == |b.rs|)
  {
  }

  function Ones(r: nat, c: nat): (m: seq<seq<real>>)
    ensures IsSize(m, r, c) && forall i, j :: 0 <= i < r && 0 <= j < c ==> m[i][j] == 1.0
  {
    seq(r, i => Repeat(1.0, c))
  }

  lemma {:induction false} DotOnes(a: seq<real>, b: seq<real>)
    requires |a| == |b| && (forall i :: 0 <= i < |a| ==> a[i] == 1.0) && forall i :: 0 <= i < |b| ==> b[i] == 1.0
    ensures Dot(a, b) == |a| as real
  {
    if a != [] {
      DotOnes(a[1..], b[1..]);
    }
  }

  /** The operator * on two matrices of all ones: components of 1 in HLSL; in GLSL the number of columns, or
      nothing at all. */
  lemma {:induction false} TimesOfMatrices(r: nat, c: nat)
    requires r > 0 && c > 1
    ensures var m := Mat(Ones(r, c)); Componentwise(Times, m, m).Mat? && Componentwise(Times, m, m) != GlslTimes(m, m)
  {
    var o := Ones(r, c);
    var h := ZipRows(Times, o, o);
    assert h[0][0] == 1.0;
    if r == c {
      var g := seq(r, i requires 0 <= i < r => RowTimes(o[i], o));
      assert GlslTimes(Mat(o), Mat(o)) == Mat(g);
      DotOnes(o[0], Column(o, 0));
      assert g[0][0] == Dot(o[0], Column(o, 0)) == c as real;
      assert g[0][0] != h[0][0];
    } else {
      assert |o[0]| == c != r;
    }
  }

  /** The operator * by shape: on matrices of a size the languages agree for all values if and only if they have
      one component. On scalars, and on vectors of the same length, they always agree. */
  lemma {:induction false} TimesExact(r: nat, c: nat)
    requires r > 0 && c > 0
    ensures (forall m, n :: IsSize(m, r, c) && IsSize(n, r, c) ==>
               Componentwise(Times, Mat(m), Mat(n)) == GlslTimes(Mat(m), Mat(n)))
            <==> r == c == 1
    ensures forall a, b :: ShapeOf(a).Single? || ShapeOf(b).Single? || (a.Vec? && b.Vec?) ==>
              Componentwise(Times, a, b) == GlslTimes(a, b)
  {
    if c > 1 {
      TimesOfMatrices(r, c);
    } else if r > 1 {
      var o := Ones(r, c);
      assert |o[0]| == c != r;
      assert Componentwise(Times, Mat(o), Mat(o)).Mat?;
    } else {
      forall m, n | IsSize(m, 1, 1) && IsSize(n, 1, 1)
        ensures Componentwise(Times, Mat(m), Mat(n)) == GlslTimes(Mat(m), Mat(n))
      {
        OneByOne(m, n);
      }
    }
  }

  lemma {:induction false} OneByOne(m: seq<seq<real>>, n: seq<seq<real>>)
    requires IsSize(m, 1, 1) && IsSize(n, 1, 1)
    ensures Componentwise(Times, Mat(m), Mat(n)) == Linear(Mat(m), Mat(n))
  {
    var h, g := ZipRows(Times, m, n), seq(1, i requires 0 <= i < 1 => RowTimes(m[i], n));
    var c := Column(n, 0);
    assert m[0][1..] == [] && c[1..] == [] && Dot([], []) == 0.0;
    assert g[0][0] == Dot(m[0], c) == m[0][0] * n[0][0] + Dot(m[0][1..], c[1..]);
    assert h[0][0] == m[0][0] * n[0][0];
    assert h[0] == g[0];
    assert h == g;
  }

  // ---- remainders ----

  function Trunc(q: real): int {
    if q >= 0.0 then q.Floor else -((-q).Floor)
  }

  /** HLSL's remainder has the sign of x, GLSL's the sign of y. */
  function FmodOf(x: real, y: real): real
    requires y != 0.0
  {
    x - y * (Trunc(x / y) as real)
  }

  function ModOf(x: real, y: real): real
    requires y != 0.0
  {
    x - y * ((x / y).Floor as real)
  }

  predicate QuotientAlike(x: real, y: real) {
    y != 0.0 ==> x / y >= 0.0 || ((x / y).Floor as real) == x / y
  }

  /** fmod against mod: they agree if and only if the quotient is not negative or is a whole number. */
  lemma {:induction false} FmodExact(x: real, y: real)
    requires y != 0.0
    ensures FmodOf(x, y) == ModOf(x, y) <==> QuotientAlike(x, y)
  {
    var q := x / y;
    var t, f := Trunc(q) as real, q.Floor as real;
    assert FmodOf(x, y) - ModOf(x, y) == y * (f - t);
    if t != f {
      NoZero(y, f - t);
    }
    if q < 0.0 {
      FloorOfNegative(q);
    }
  }

  lemma {:induction false} NoZero(x: real, y: real)
    requires x != 0.0 && y != 0.0
    ensures x * y != 0.0
  {
  }

  lemma {:induction false} FloorOfNegative(q: real)
    ensures -((-q).Floor) == q.Floor <==> (q.Floor as real) == q
  {
    var a, b := q.Floor, (-q).Floor;
    assert a as real <= q < a as real + 1.0 && b as real <= -q < b as real + 1.0;
    if -b == a {
      assert (-b) as real == a as real;
      assert -(b as real) == a as real;
    }
  }

  /** fmod(-1, 2) is -1, mod(-1, 2) is 1. */
  lemma {:induction false} FmodOfNegative()
    ensures FmodOf(-1.0, 2.0) == -1.0 && ModOf(-1.0, 2.0) == 1.0
  {
    var q := -1.0 / 2.0;
    assert q == -0.5 && q.Floor == -1 && Trunc(q) == 0;
  }

  /** Component by component, with one divisor for all if it is a scalar. */
  function Remainder(mod: (real, real) -> real, a: Value, b: Value): Value {
    match (a, b)
    case (Scalar(x), Scalar(y)) => Scalar(mod(x, y))
    case (Vec(v), Vec(w)) =>
      if |v| == |w| then Vec(seq(|v|, i requires 0 <= i < |v| => mod(v[i], w[i]))) else Undefined
    case (Vec(v), Scalar(y)) => Vec(seq(|v|, i requires 0 <= i < |v| => mod(v[i], y)))
    case _ => Undefined
  }

  function HlslFmod(a: Value, b: Value): Value {
    Remainder((x: real, y: real) => if y == 0.0 then 0.0 else FmodOf(x, y), a, b)
  }

  function GlslMod(a: Value, b: Value): Value {
    Remainder((x: real, y: real) => if y == 0.0 then 0.0 else ModOf(x, y), a, b)
  }

  /** No quotient is negative, but for whole numbers. */
  predicate QuotientsAlike(a: Value, b: Value) {
    match (a, b)
    case (Scalar(x), Scalar(y)) => QuotientAlike(x, y)
    case (Vec(v), Vec(w)) => |v| == |w| ==> forall i :: 0 <= i < |v| ==> QuotientAlike(v[i], w[i])
    case (Vec(v), Scalar(y)) => forall i :: 0 <= i < |v| ==> QuotientAlike(v[i], y)
    case _ => true
  }

  lemma {:induction false} RemaindersExact(a: Value, b: Value)
    ensures HlslFmod(a, b) == GlslMod(a, b) <==> QuotientsAlike(a, b)
  {
    hide FmodOf, ModOf, QuotientAlike;
    forall x: real, y: real | y != 0.0
      ensures FmodOf(x, y) == ModOf(x, y) <==> QuotientAlike(x, y)
    {
      FmodExact(x, y);
    }
    assert forall x: real :: QuotientAlike(x, 0.0) by { NoQuotient(); }
    match (a, b)
    case (Vec(v), Vec(w)) =>
      if |v| == |w| {
        assert forall i :: 0 <= i < |v| ==>
            HlslFmod(a, b).rs[i] == (if w[i] == 0.0 then 0.0 else FmodOf(v[i], w[i]))
            && GlslMod(a, b).rs[i] == (if w[i] == 0.0 then 0.0 else ModOf(v[i], w[i]));
      }
    case (Vec(v), Scalar(y)) =>
      assert forall i :: 0 <= i < |v| ==>
          HlslFmod(a, b).rs[i] == (if y == 0.0 then 0.0 else FmodOf(v[i], y))
          && GlslMod(a, b).rs[i] == (if y == 0.0 then 0.0 else ModOf(v[i], y));
    case _ =>
  }

  lemma {:induction false} NoQuotient()
    ensures forall x: real :: QuotientAlike(x, 0.0)
  {
  }

  // ---- vectors of components ----

  /** The components of scalars and vectors, in order. */
  function Components(vs: seq<Value>): Option<seq<real>> {
    if vs == [] then Some([])
    else
      match (vs[0], Components(vs[1..]))
      case (Scalar(r), Some(rest)) => Some([r] + rest)
      case (Vec(rs), Some(rest)) => if rs == [] then None else Some(rs + rest)
      case _ => None
  }

  /** They are as many as the vector has. */
  predicate Counted(n: nat, vs: seq<Value>) {
    Components(vs).Some? && |Components(vs).value| == n
  }

  /** HLSL's floatN: of components, just as many. */
  function HlslVector(n: nat, vs: seq<Value>): Value {
    if Counted(n, vs) then Vec(Components(vs).value) else Undefined
  }

  /** GLSL's vecN: of one scalar for all components, or of enough components, of which the last argument may have
      more than are needed. */
  function GlslVector(n: nat, vs: seq<Value>): Value {
    if |vs| == 1 && vs[0].Scalar? then Vec(Repeat(vs[0].r, n))
    else
      match Components(vs)
      case Some(cs) =>
        if |cs| >= n && vs != [] && Components(vs[..|vs| - 1]).Some? && |Components(vs[..|vs| - 1]).value| < n
        then Vec(cs[..n])
        else Undefined
      case None => Undefined
  }

  lemma {:induction false} ComponentsSnoc(vs: seq<Value>, v: Value)
    ensures Components(vs + [v])
         == match (Components(vs), v)
            case (Some(cs), Scalar(r)) => Some(cs + [r])
            case (Some(cs), Vec(rs)) => if rs == [] then None else Some(cs + rs)
            case _ => None
  {
    if vs == [] {
      assert vs + [v] == [v] && [v][1..] == [];
      var more := if v.Scalar? then [v.r] else if v.Vec? then v.rs else [];
      assert more + [] == [] + more == more;
    } else {
      assert (vs + [v])[1..] == vs[1..] + [v];
      ComponentsSnoc(vs[1..], v);
      if Components(vs).Some? {
        var head := if vs[0].Scalar? then [vs[0].r] else vs[0].rs;
        var rest := Components(vs[1..]).value;
        var more := if v.Scalar? then [v.r] else if v.Vec? then v.rs else [];
        assert (head + rest) + more == head + (rest + more);
      }
    }
  }

  /** The constructors of n components agree on exactly those lists of arguments that have n components, and where
      neither language has one. */
  lemma {:induction false} VectorExact(n: nat, vs: seq<Value>)
    requires n > 1
    ensures HlslVector(n, vs) == GlslVector(n, vs) <==> Counted(n, vs) || GlslVector(n, vs).Undefined?
    ensures Counted(n, vs) ==> GlslVector(n, vs) == Vec(Components(vs).value)
  {
    if vs != [] {
      var init, last := vs[..|vs| - 1], vs[|vs| - 1];
      assert vs == init + [last];
      ComponentsSnoc(init, last);
      if |vs| == 1 {
        assert init == [];
      }
      if Counted(n, vs) {
        assert Components(vs).value[..n] == Components(vs).value;
      }
    }
  }

  /** With no fraction, as intN has them in both languages. */
  function Truncated(v: Value): Value {
    if v.Vec? then Vec(seq(|v.rs|, i requires 0 <= i < |v.rs| => Trunc(v.rs[i]) as real)) else v
  }

  // ---- interpolation, fractions, roots ----

  /** HLSL: x + s(y - x) by component. */
  function HlslLerp(x: Value, y: Value, s: Value): Value {
    Componentwise(Plus, x, Componentwise(Times, s, Componentwise(Minus, y, x)))
  }

  /** Scalars, or vectors of a length with a vector or a scalar to interpolate by. */
  predicate MixTakes(x: Value, y: Value, a: Value) {
    match (x, y, a)
    case (Scalar(_), Scalar(_), Scalar(_)) => true
    case (Vec(v), Vec(w), Vec(u)) => |v| == |w| == |u|
    case (Vec(v), Vec(w), Scalar(_)) => |v| == |w|
    case _ => false
  }

  /** GLSL: x(1 - a) + ya. */
  function GlslMix(x: Value, y: Value, a: Value): Value {
    if MixTakes(x, y, a)
    then Componentwise(Plus, Componentwise(Times, x, Componentwise(Minus, Scalar(1.0), a)), Componentwise(Times, y, a))
    else Undefined
  }

  /** lerp and mix agree on exactly what mix takes, and where HLSL has no value either. */
  lemma {:induction false} LerpExact(x: Value, y: Value, s: Value)
    ensures HlslLerp(x, y, s) == GlslMix(x, y, s) <==> MixTakes(x, y, s) || HlslLerp(x, y, s).Undefined?
  {
    match (x, y, s)
    case (Scalar(p), Scalar(q), Scalar(t)) => MixOne(p, q, t);
    case (Vec(v), Vec(w), Vec(u)) => if |v| == |w| == |u| { MixVectors(v, w, u); }
    case (Vec(v), Vec(w), Scalar(t)) => if |v| == |w| { MixVectors(v, w, Repeat(t, |v|)); RepeatRest(t, |v|); }
    case _ =>
  }

  lemma {:induction false} MixVectors(v: seq<real>, w: seq<real>, u: seq<real>)
    requires |v| == |w| == |u|
    ensures Zip(Plus, v, Zip(Times, u, Zip(Minus, w, v)))
         == Zip(Plus, Zip(Times, v, Zip(Minus, Repeat(1.0, |u|), u)), Zip(Times, w, u))
  {
    var a := Zip(Plus, v, Zip(Times, u, Zip(Minus, w, v)));
    var b := Zip(Plus, Zip(Times, v, Zip(Minus, Repeat(1.0, |u|), u)), Zip(Times, w, u));
    forall i | 0 <= i < |v|
      ensures a[i] == b[i]
    {
      MixOne(v[i], w[i], u[i]);
      hide Operate;
    }
  }

  lemma {:induction false} RepeatRest(t: real, n: nat)
    ensures Repeat(1.0 - t, n) == Zip(Minus, Repeat(1.0, n), Repeat(t, n))
  {
  }

  lemma {:induction false} MixOne(x: real, y: real, a: real)
    ensures Operate(Plus, x, Operate(Times, a, Operate(Minus, y, x)))
         == Operate(Plus, Operate(Times, x, Operate(Minus, 1.0, a)), Operate(Times, y, a))
  {
  }

  function FracOf(r: real): real {
    r - (r.Floor as real)
  }

  /** HLSL takes the fractions of matrices as well. */
  function HlslFrac(v: Value): Value {
    match v
    case Scalar(r) => Scalar(FracOf(r))
    case Vec(rs) => Vec(seq(|rs|, i requires 0 <= i < |rs| => FracOf(rs[i])))
    case Mat(m) => Mat(seq(|m|, i requires 0 <= i < |m| => seq(|m[i]|, j requires 0 <= j < |m[i]| => FracOf(m[i][j]))))
    case _ => Undefined
  }

  function GlslFract(v: Value): Value {
    match v
    case Scalar(r) => Scalar(FracOf(r))
    case Vec(rs) => Vec(seq(|rs|, i requires 0 <= i < |rs| => FracOf(rs[i])))
    case _ => Undefined
  }

  /** One over the root, whatever that is; the root has the same name in both languages. */
  function HlslRsqrt(base: Meaning<Value>, v: Value): Value {
    Componentwise(Divide, Scalar(1.0), base.call("sqrt", [v]))
  }

  function GlslInverseSqrt(base: Meaning<Value>, v: Value): Value {
    if v.Mat? then Undefined else Componentwise(Divide, Scalar(1.0), base.call("sqrt", [v]))
  }

  // ---- the two languages ----

  function Transposed(v: Value): Value {
    match v
    case Mat(m) =>
      if IsSize(m, |m|, Width(m)) then Mat(seq(Width(m), j requires 0 <= j < Width(m) => Column(m, j))) else Undefined
    case _ => v
  }

  /** HLSL over some reading of everything that is no arithmetic: names, textures, other functions. */
  function HlslFunction(base: Meaning<Value>, f: string, vs: seq<Value>): Value {
    if f == "mul" && |vs| == 2 then HlslMul(vs[0], vs[1])
    else if f == "mad" && |vs| == 3 then Componentwise(Plus, Componentwise(Times, vs[0], vs[1]), vs[2])
    else if f == "saturate" && |vs| == 1 then
      base.call("clamp", [vs[0], base.atom(Num1("0.0")), base.atom(Num1("1.0"))])
    else if f == "fmod" && |vs| == 2 then HlslFmod(vs[0], vs[1])
    else if f == "lerp" && |vs| == 3 then HlslLerp(vs[0], vs[1], vs[2])
    else if f == "frac" && |vs| == 1 then HlslFrac(vs[0])
    else if f == "rsqrt" && |vs| == 1 then HlslRsqrt(base, vs[0])
    else if f == "float2" then HlslVector(2, vs)
    else if f == "float3" then HlslVector(3, vs)
    else if f == "float4" then HlslVector(4, vs)
    else if f == "int2" then Truncated(HlslVector(2, vs))
    else if f == "int3" then Truncated(HlslVector(3, vs))
    else if f == "int4" then Truncated(HlslVector(4, vs))
    else base.call(f, vs)
  }

  function HlslOperator(base: Meaning<Value>, op: BinaryOp, v: Value, w: Value): Value {
    if Computed(op) then Componentwise(op, v, w) else base.binary(op, v, w)
  }

  function RealHlsl(base: Meaning<Value>): Meaning<Value> {
    base.(call := (f, vs) => HlslFunction(base, f, vs), binary := (op, v, w) => HlslOperator(base, op, v, w))
  }

  /** A matrix made of its columns, unless of another matrix. */
  predicate ByColumns(f: string, vs: seq<Value>) {
    f in MATRICES && !(|vs| == 1 && vs[0].Mat?)
  }

  function GlslFunction(env: Env, bound: map<string, nat>, base: Meaning<Value>, f: string, vs: seq<Value>): Value {
    if f in TEXTURE_FUNCTIONS then GlslTexture(env, bound, base, f, vs)
    else if f == "mod" && |vs| == 2 then GlslMod(vs[0], vs[1])
    else if f == "mix" && |vs| == 3 then GlslMix(vs[0], vs[1], vs[2])
    else if f == "fract" && |vs| == 1 then GlslFract(vs[0])
    else if f == "inversesqrt" && |vs| == 1 then GlslInverseSqrt(base, vs[0])
    else if f == "vec2" then GlslVector(2, vs)
    else if f == "vec3" then GlslVector(3, vs)
    else if f == "vec4" then GlslVector(4, vs)
    else if f == "ivec2" then Truncated(GlslVector(2, vs))
    else if f == "ivec3" then Truncated(GlslVector(3, vs))
    else if f == "ivec4" then Truncated(GlslVector(4, vs))
    else
      var r := HlslFunction(base, Native(f, |vs|), vs);
      if ByColumns(Native(f, |vs|), vs) then Transposed(r) else r
  }

  function GlslTexture(env: Env, bound: map<string, nat>, base: Meaning<Value>, f: string, vs: seq<Value>): Value {
    if vs != [] && vs[0].Handle? then
      if Callable(env, bound, f, vs[0].name, |vs| - 1)
      then base.methodCall(vs[0], MethodFor(f, |vs| - 1), Atoms(base, Using(env, bound, f, vs[0].name)) + vs[1..])
      else Undefined
    else Undefined
  }

  /** What GLSL makes of an operator that it does not apply by component. */
  function Whole(op: BinaryOp, v: Value, w: Value): Value {
    match op
    case Times => Linear(v, w)
    case Equal => Scalar(Truth(v == w))
    case NotEqual => Scalar(Truth(v != w))
    case _ => Undefined
  }

  function GlslOperator(base: Meaning<Value>, op: BinaryOp, v: Value, w: Value): Value {
    if OperatorAlike(op, ShapeOf(v), ShapeOf(w)) then HlslOperator(base, op, v, w) else Whole(op, v, w)
  }

  /** GLSL over the same: matrices are lists of columns, conditions are scalars. */
  function RealGlsl(env: Env, bound: map<string, nat>, base: Meaning<Value>): Meaning<Value> {
    base.(call := (f, vs) => GlslFunction(env, bound, base, f, vs),
          binary := (op, v, w) => GlslOperator(base, op, v, w),
          index := (v, i) => base.index(Transposed(v), i),
          unary := (op, v) => if op == Not && !ShapeOf(v).Single? then Undefined else base.unary(op, v),
          cond := (t, v, w) => if ShapeOf(t).Single? then base.cond(t, v, w) else Undefined)
  }

  /** fmod on quotients that are not negative, lerp on what mix takes, fractions and roots of scalars and vectors,
      vectors with as many components as they have, and matrices that are symmetric or made of another one. */
  predicate SameValues(base: Meaning<Value>, f: string, vs: seq<Value>) {
    && (f == "fmod" && |vs| == 2 ==> QuotientsAlike(vs[0], vs[1]))
    && (f == "lerp" && |vs| == 3 ==> MixTakes(vs[0], vs[1], vs[2]))
    && (f in {"frac", "rsqrt"} && |vs| == 1 ==> !vs[0].Mat?)
    && (f in {"float2", "int2"} ==> Counted(2, vs))
    && (f in {"float3", "int3"} ==> Counted(3, vs))
    && (f in {"float4", "int4"} ==> Counted(4, vs))
    && (ByColumns(f, vs) ==> Transposed(base.call(f, vs)) == base.call(f, vs))
  }

  function SameOfValues(base: Meaning<Value>): (string, seq<Value>) -> bool {
    (f, vs) => SameValues(base, f, vs)
  }

  /** A texture's name stands for the texture. */
  ghost predicate Handles(env: Env, base: Meaning<Value>) {
    forall n :: TextureParam(env, n).Some? ==> base.atom(Ident(n)) == Handle(n)
  }

  /** Real arithmetic meets the hypothesis of the theorems about values, function by function and operator by
      operator. */
  lemma {:induction false} RealReads(env: Env, bound: map<string, nat>, base: Meaning<Value>)
    requires Handles(env, base)
    ensures ReadsByShape(env, bound, RealHlsl(base), RealGlsl(env, bound, base), ShapeOf, SameOfValues(base))
  {
    hide HlslFunction, GlslFunction, HlslOperator, GlslOperator, OperatorAlike, ProductAlike, TextureReads, Named,
         SameValues, Rename, TextureMethod, Transposed;
    var h, g := RealHlsl(base), RealGlsl(env, bound, base);
    forall x: Value, y: Value
      ensures ProductAlike(ShapeOf(x), ShapeOf(y)) ==> h.call("mul", [x, y]) == g.binary(Times, x, y)
    {
      RealProducts(env, bound, base, x, y, y);
    }
    forall x: Value, y: Value, z: Value
      ensures OperatorAlike(Times, ShapeOf(x), ShapeOf(y)) ==>
                h.call("mad", [x, y, z]) == g.binary(Plus, g.binary(Times, x, y), z)
    {
      RealProducts(env, bound, base, x, y, z);
    }
    forall x: Value
      ensures h.call("saturate", [x]) == g.call("clamp", [x, g.atom(Num1("0.0")), g.atom(Num1("1.0"))])
    {
      RealProducts(env, bound, base, x, x, x);
    }
    forall f: string, vs: seq<Value> | !IsExpanded(f) && Named(f, |vs|) && SameOfValues(base)(f, vs)
      ensures g.call(Rename(f), vs) == h.call(f, vs)
    {
      RealCall(env, bound, base, f, vs);
    }
    forall n: string, m: string, cs: seq<Value> | TextureMethod(env, n, m)
      ensures TextureReads(env, bound, n, m, cs, h, g)
    {
      RealTexture(env, bound, base, n, m, cs);
    }
    forall op: BinaryOp, v: Value, w: Value | OperatorAlike(op, ShapeOf(v), ShapeOf(w))
      ensures g.binary(op, v, w) == h.binary(op, v, w)
    {
      RealOperator(base, op, v, w);
    }
    forall v: Value, i: Value | !ShapeOf(v).Matrix?
      ensures g.index(v, i) == h.index(v, i)
    {
      NotTransposed(v);
    }
  }

  lemma {:induction false} NotTransposed(v: Value)
    requires !ShapeOf(v).Matrix?
    ensures Transposed(v) == v
  {
  }

  lemma {:induction false} RealOperator(base: Meaning<Value>, op: BinaryOp, v: Value, w: Value)
    requires OperatorAlike(op, ShapeOf(v), ShapeOf(w))
    ensures GlslOperator(base, op, v, w) == HlslOperator(base, op, v, w)
  {
  }

  lemma {:induction false} RealProducts(env: Env, bound: map<string, nat>, base: Meaning<Value>, x: Value, y: Value,
                                        z: Value)
    ensures ProductAlike(ShapeOf(x), ShapeOf(y)) ==>
              HlslFunction(base, "mul", [x, y]) == GlslOperator(base, Times, x, y)
    ensures OperatorAlike(Times, ShapeOf(x), ShapeOf(y)) ==>
              HlslFunction(base, "mad", [x, y, z]) == GlslOperator(base, Plus, GlslOperator(base, Times, x, y), z)
    ensures HlslFunction(base, "saturate", [x])
         == GlslFunction(env, bound, base, "clamp", [x, base.atom(Num1("0.0")), base.atom(Num1("1.0"))])
  {
    MulExact(x, y);
    ClampNative();
    hide Native;
  }

  lemma {:induction false} RealCall(env: Env, bound: map<string, nat>, base: Meaning<Value>, f: string,
                                    vs: seq<Value>)
    requires !IsExpanded(f) && Named(f, |vs|) && SameValues(base, f, vs)
    ensures GlslFunction(env, bound, base, Rename(f), vs) == HlslFunction(base, f, vs)
  {
    hide ByColumns;
    if f in VECTORS {
      RealVector(env, bound, base, f, vs);
    } else if f in {"fmod", "lerp", "frac", "rsqrt"} {
      RealIntrinsic(env, bound, base, f, vs);
    } else {
      RealOther(env, bound, base, f, vs);
    }
  }

  const VECTORS: set<string> := {"float2", "float3", "float4", "int2", "int3", "int4"}

  lemma {:induction false} RealVector(env: Env, bound: map<string, nat>, base: Meaning<Value>, f: string,
                                      vs: seq<Value>)
    requires f in VECTORS && SameValues(base, f, vs)
    ensures GlslFunction(env, bound, base, Rename(f), vs) == HlslFunction(base, f, vs)
  {
    if f == "float2" || f == "int2" {
      VectorCounted(env, bound, base, 2, vs);
    } else if f == "float3" || f == "int3" {
      VectorCounted(env, bound, base, 3, vs);
    } else {
      VectorCounted(env, bound, base, 4, vs);
    }
    hide Rename, HlslFunction, GlslFunction;
  }

  lemma {:induction false} VectorCounted(env: Env, bound: map<string, nat>, base: Meaning<Value>, n: nat,
                                         vs: seq<Value>)
    requires 2 <= n <= 4 && Counted(n, vs)
    ensures n == 2 ==>
              GlslFunction(env, bound, base, Rename("float2"), vs) == HlslFunction(base, "float2", vs)
              && GlslFunction(env, bound, base, Rename("int2"), vs) == HlslFunction(base, "int2", vs)
    ensures n == 3 ==>
              GlslFunction(env, bound, base, Rename("float3"), vs) == HlslFunction(base, "float3", vs)
              && GlslFunction(env, bound, base, Rename("int3"), vs) == HlslFunction(base, "int3", vs)
    ensures n == 4 ==>
              GlslFunction(env, bound, base, Rename("float4"), vs) == HlslFunction(base, "float4", vs)
              && GlslFunction(env, bound, base, Rename("int4"), vs) == HlslFunction(base, "int4", vs)
  {
    Counterparts();
    VectorExact(n, vs);
    HlslConstructs(base, vs);
    GlslConstructs(env, bound, base, vs);
    hide Rename, HlslFunction, GlslFunction, HlslVector, GlslVector, Counted, Truncated;
  }

  lemma {:induction false} HlslConstructs(base: Meaning<Value>, vs: seq<Value>)
    ensures HlslFunction(base, "float2", vs) == HlslVector(2, vs)
    ensures HlslFunction(base, "float3", vs) == HlslVector(3, vs)
    ensures HlslFunction(base, "float4", vs) == HlslVector(4, vs)
    ensures HlslFunction(base, "int2", vs) == Truncated(HlslVector(2, vs))
    ensures HlslFunction(base, "int3", vs) == Truncated(HlslVector(3, vs))
    ensures HlslFunction(base, "int4", vs) == Truncated(HlslVector(4, vs))
  {
    hide HlslVector, Truncated;
  }

  lemma {:induction false} GlslConstructs(env: Env, bound: map<string, nat>, base: Meaning<Value>, vs: seq<Value>)
    ensures GlslFunction(env, bound, base, "vec2", vs) == GlslVector(2, vs)
    ensures GlslFunction(env, bound, base, "vec3", vs) == GlslVector(3, vs)
    ensures GlslFunction(env, bound, base, "vec4", vs) == GlslVector(4, vs)
    ensures GlslFunction(env, bound, base, "ivec2", vs) == Truncated(GlslVector(2, vs))
    ensures GlslFunction(env, bound, base, "ivec3", vs) == Truncated(GlslVector(3, vs))
    ensures GlslFunction(env, bound, base, "ivec4", vs) == Truncated(GlslVector(4, vs))
  {
    hide GlslVector, Truncated, GlslTexture, Native, Transposed, ByColumns;
  }

  lemma {:induction false} RealIntrinsic(env: Env, bound: map<string, nat>, base: Meaning<Value>, f: string,
                                         vs: seq<Value>)
    requires f in {"fmod", "lerp", "frac", "rsqrt"} && SameValues(base, f, vs)
    ensures GlslFunction(env, bound, base, Rename(f), vs) == HlslFunction(base, f, vs)
  {
    Counterparts();
    if f == "fmod" && |vs| == 2 {
      RemaindersExact(vs[0], vs[1]);
    }
    if f == "lerp" && |vs| == 3 {
      LerpExact(vs[0], vs[1], vs[2]);
    }
    HlslIntrinsics(base, vs);
    GlslRemainders(env, bound, base, vs);
    GlslMixes(env, bound, base, vs);
    GlslFractions(env, bound, base, vs);
    GlslRoots(env, bound, base, vs);
    hide Rename, HlslFmod, GlslMod, HlslLerp, GlslMix, QuotientsAlike, MixTakes, Counted, HlslFunction, GlslFunction;
  }

  lemma {:induction false} HlslIntrinsics(base: Meaning<Value>, vs: seq<Value>)
    ensures |vs| == 2 ==> HlslFunction(base, "fmod", vs) == HlslFmod(vs[0], vs[1])
    ensures |vs| == 3 ==> HlslFunction(base, "lerp", vs) == HlslLerp(vs[0], vs[1], vs[2])
    ensures |vs| == 1 ==> HlslFunction(base, "frac", vs) == HlslFrac(vs[0])
    ensures |vs| == 1 ==> HlslFunction(base, "rsqrt", vs) == HlslRsqrt(base, vs[0])
  {
    hide HlslFmod, HlslLerp, HlslFrac, HlslRsqrt;
  }

  lemma {:induction false} GlslRemainders(env: Env, bound: map<string, nat>, base: Meaning<Value>,
                                          vs: seq<Value>)
    ensures GlslFunction(env, bound, base, "mod", vs) ==
            if |vs| == 2 then GlslMod(vs[0], vs[1]) else HlslFunction(base, "fmod", vs)
  {
    NativeNames(|vs|);
    hide Native, Transposed, GlslTexture, HlslFunction, GlslMod, GlslMix, GlslFract, GlslInverseSqrt;
  }

  lemma {:induction false} GlslMixes(env: Env, bound: map<string, nat>, base: Meaning<Value>,
                                     vs: seq<Value>)
    ensures GlslFunction(env, bound, base, "mix", vs) ==
            if |vs| == 3 then GlslMix(vs[0], vs[1], vs[2]) else HlslFunction(base, "lerp", vs)
  {
    NativeNames(|vs|);
    hide Native, Transposed, GlslTexture, HlslFunction, GlslMod, GlslMix, GlslFract, GlslInverseSqrt;
  }

  lemma {:induction false} GlslFractions(env: Env, bound: map<string, nat>, base: Meaning<Value>,
                                         vs: seq<Value>)
    ensures GlslFunction(env, bound, base, "fract", vs) ==
            if |vs| == 1 then GlslFract(vs[0]) else HlslFunction(base, "frac", vs)
  {
    NativeNames(|vs|);
    hide Native, Transposed, GlslTexture, HlslFunction, GlslMod, GlslMix, GlslFract, GlslInverseSqrt;
  }

  lemma {:induction false} GlslRoots(env: Env, bound: map<string, nat>, base: Meaning<Value>,
                                     vs: seq<Value>)
    ensures GlslFunction(env, bound, base, "inversesqrt", vs) ==
            if |vs| == 1 then GlslInverseSqrt(base, vs[0]) else HlslFunction(base, "rsqrt", vs)
  {
    NativeNames(|vs|);
    hide Native, Transposed, GlslTexture, HlslFunction, GlslMod, GlslMix, GlslFract, GlslInverseSqrt;
  }

  lemma {:induction false} RealOther(env: Env, bound: map<string, nat>, base: Meaning<Value>, f: string,
                                     vs: seq<Value>)
    requires !IsExpanded(f) && f !in VECTORS && f !in {"fmod", "lerp", "frac", "rsqrt"}
    requires Named(f, |vs|) && SameValues(base, f, vs)
    ensures GlslFunction(env, bound, base, Rename(f), vs) == HlslFunction(base, f, vs)
  {
    NativeNames(|vs|);
    hide Rename, Native, Transposed, GlslTexture, Counted;
  }

  lemma {:induction false} NativeNames(n: nat)
    ensures Native("mod", n) == "fmod" && Native("mix", n) == "lerp" && Native("fract", n) == "frac"
    ensures Native("inversesqrt", n) == "rsqrt"
    ensures Native("vec2", n) == "float2" && Native("vec3", n) == "float3" && Native("vec4", n) == "float4"
    ensures Native("ivec2", n) == "int2" && Native("ivec3", n) == "int3" && Native("ivec4", n) == "int4"
  {
  }

  lemma {:induction false} RealTexture(env: Env, bound: map<string, nat>, base: Meaning<Value>, n: string, m: string,
                                       cs: seq<Value>)
    requires TextureMethod(env, n, m) && Handles(env, base)
    ensures TextureReads(env, bound, n, m, cs, RealHlsl(base), RealGlsl(env, bound, base))
  {
    MethodBack(env, n, m);
    hide TextureCall, TextureParam, MethodFor, TextureFn, Coordinates, Native;
    var vs := [Handle(n)] + cs;
    assert vs[1..] == cs;
    ReadyCallable(env, bound, n, m);
    if Ready(env, bound, n, m) {
      SameAtoms(base, SamplerOf(env, bound, n, m));
    }
  }

  lemma {:induction false} SameAtoms(base: Meaning<Value>, ts: seq<Token>)
    ensures Atoms(RealHlsl(base), ts) == Atoms(base, ts)
  {
    if ts != [] {
      SameAtoms(base, ts[1..]);
    }
  }

  /** So in real arithmetic every expression keeps its value whose operands the languages treat alike: no mul of two
      vectors, no * of two matrices, no fmod with a negative quotient, no comparison of vectors, no subscript of a
      matrix, no matrix made of rows but a symmetric one, vectors of as many components as they have, lerp of scalars
      or of vectors, and one sampler for each texture. */
  lemma {:induction false} RealMeans(env: Env, bound: map<string, nat>, base: Meaning<Value>, e: Expr)
    requires Hlsl(env, e) && Handles(env, base) && Known(env, bound) && Agrees(env, bound, e)
    requires Alike(env, e, RealHlsl(base), ShapeOf, SameOfValues(base))
    ensures Eval(Translate(env, e), RealGlsl(env, bound, base)) == Eval(e, RealHlsl(base))
  {
    hide Alike, ReadsByShape, Reads;
    RealReads(env, bound, base);
    AlikeReads(env, bound, e, RealHlsl(base), RealGlsl(env, bound, base), ShapeOf, SameOfValues(base));
    TranslateMeans(env, bound, e, RealHlsl(base), RealGlsl(env, bound, base));
  }

  /** The position that every vertex shader returns: float4(x, w) of three components and one is written with vec4, and
      is the vector of the four. */
  lemma {:induction false} PositionMeans(env: Env, bound: map<string, nat>, base: Meaning<Value>, x: Expr, w: Expr)
    requires Hlsl(env, Call("float4", [x, w])) && Handles(env, base) && Known(env, bound)
    requires Agrees(env, bound, Call("float4", [x, w]))
    requires forall e :: e in [x, w] ==> Alike(env, e, RealHlsl(base), ShapeOf, SameOfValues(base))
    requires var v := Eval(x, RealHlsl(base)); v.Vec? && |v.rs| == 3
    requires Eval(w, RealHlsl(base)).Scalar?
    ensures var e := Translate(env, Call("float4", [x, w]));
            && e.Call? && e.fn == "vec4"
            && Eval(e, RealGlsl(env, bound, base)) == Vec(Eval(x, RealHlsl(base)).rs + [Eval(w, RealHlsl(base)).r])
  {
    var e, h := Call("float4", [x, w]), RealHlsl(base);
    var v, r := Eval(x, h), Eval(w, h);
    VectorsNamed(2);
    EvalTwo(x, w, h);
    FourComponents(base, v, r);
    hide Hlsl, Agrees, Known, Handles, Rename, HlslFunction, Counted, SameValues;
    AlikeCall(env, "float4", [x, w], h, ShapeOf, SameOfValues(base));
    RealMeans(env, bound, base, e);
  }

  lemma {:induction false} FourComponents(base: Meaning<Value>, v: Value, r: Value)
    requires v.Vec? && |v.rs| == 3 && r.Scalar?
    ensures SameValues(base, "float4", [v, r]) && HlslFunction(base, "float4", [v, r]) == Vec(v.rs + [r.r])
  {
    HlslConstructs(base, [v, r]);
    assert [v, r] == [v] + [r] && [v][1..] == [];
    ComponentsSnoc([v], r);
    assert v.rs + [] == v.rs;
    assert Components([v, r]) == Some(v.rs + [r.r]);
    hide HlslFunction;
  }

  /** And not in general: mul of any two vectors of a length does not. */
  lemma {:induction false} MulOfVectors(env: Env, bound: map<string, nat>, base: Meaning<Value>, x: string, y: string)
    requires var v, w := base.atom(Ident(x)), base.atom(Ident(y)); v.Vec? && w.Vec? && |v.rs| == |w.rs|
    ensures var e := Call("mul", [Atom(Ident(x)), Atom(Ident(y))]);
            Eval(e, RealHlsl(base)).Scalar? && Eval(Translate(env, e), RealGlsl(env, bound, base)).Vec?
  {
    var a, b, g := Atom(Ident(x)), Atom(Ident(y)), RealGlsl(env, bound, base);
    TwoArgs(env, a, b);
    EvalProducts(a, b, b, g);
    EvalTwo(a, b, RealHlsl(base));
    MulExact(base.atom(Ident(x)), base.atom(Ident(y)));
  }

  lemma {:induction false} EvalTwo<V>(x: Expr, y: Expr, m: Meaning<V>)
    ensures EvalArgs([x, y], m) == [Eval(x, m), Eval(y, m)]
  {
    assert [x, y][1..] == [y] && [y][1..] == [];
  }

  lemma {:induction false} TwoArgs(env: Env, a: Expr, b: Expr)
    requires a.Atom? && b.Atom?
    ensures Translate(env, Call("mul", [a, b])) == Product(a, b)
  {
    assert [a, b][1..] == [b];
    OneArg(env, b);
    assert TranslateArgs(env, [a, b]) == [a] + [b];
  }
}
